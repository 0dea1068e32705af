/**
 * A draft handle on the canonical tables: predicate updates and deletes and batched inserts, each
 * of which leaves at every target what one row write there leaves
 * (packages/db/src/draft-select-builder.ts, packages/db/src/draft-mutations.ts).
 */
module DraftTables {
  import opened Common
  import opened DraftOverlay
  import opened DraftWrites
  import opened PublishOrder
  import opened CanonicalWrites

  type ChangeRows = map<Target, Change>

  datatype DraftStatement =
    | InsertRows(table: string, items: seq<Item>, lockOrder: seq<nat>)
    | UpdateRows(table: string, where: Where, patch: Row)
    | DeleteRows(table: string, where: Where)

  /** The row a draft read returns for a target. */
  function EffectiveAt(schemas: string -> Schema, rows: Rows, changes: ChangeRows, t: Target): Option<Row> {
    Effective(schemas(t.table), Lookup(rows, t), Lookup(changes, t))
  }

  /** Whether a predicate write addresses the row. */
  predicate Matches(table: string, where: Where, t: Target, row: Option<Row>) {
    t.table == table && row.Some? && where(t.key, row.value)
  }

  /** A batch insert runs when its keys are distinct and effectively absent. */
  ghost predicate Accepts(schemas: string -> Schema, rows: Rows, changes: ChangeRows, table: string, items: seq<Item>) {
    && DistinctItems(items)
    && forall i :: 0 <= i < |items| ==> EffectiveAt(schemas, rows, changes, Target(table, items[i].key)).None?
  }

  /** What a batch of rows writes at one target. */
  function BatchOp(table: string, items: seq<Item>, t: Target): Option<DraftOp> {
    if t.table == table && ValuesFor(items, t.key).Some? then Some(InsertOp(ValuesFor(items, t.key).value)) else None
  }

  /** What a statement writes at one target. */
  ghost function DraftOpAt(schemas: string -> Schema, rows: Rows, changes: ChangeRows, s: DraftStatement, t: Target): Option<DraftOp> {
    match s
    case InsertRows(table, items, _) => if Accepts(schemas, rows, changes, table, items) then BatchOp(table, items, t) else None
    case UpdateRows(table, where, patch) =>
      if patch != map[] && Matches(table, where, t, EffectiveAt(schemas, rows, changes, t)) then Some(UpdateOp(patch)) else None
    case DeleteRows(table, where) => if Matches(table, where, t, EffectiveAt(schemas, rows, changes, t)) then Some(DeleteOp) else None
  }

  /** The row an accepted insert makes visible, at the revision planned when the statement starts. */
  function Planned(schema: Schema, rows: Rows, ledger: Ledger, table: string, item: Item): Row {
    var t := Target(table, item.key);
    InsertedRow(schema, item.values, PlannedRevision(schema, Lookup(rows, t), Reserved(schema, Lookup(ledger, t))))
  }

  function SlotAfter(schema: Schema, base: Option<Row>, slot: Slot, op: Option<DraftOp>): Slot {
    if op.None? then slot else Written(schema, base, slot, op.value)
  }

  /** Statements handlers can write: complete rows, and patches of neither key nor revision. */
  ghost predicate WellTyped(schemas: string -> Schema, s: DraftStatement) {
    match s
    case InsertRows(table, items, lockOrder) => IsPermutation(lockOrder, |items|) && AllValid(schemas(table), items)
    case UpdateRows(table, where, patch) => ValidPatch(schemas(table), patch)
    case DeleteRows(table, where) => true
  }

  ghost predicate AllValid(schema: Schema, items: seq<Item>) {
    forall i :: 0 <= i < |items| ==> ValidInsert(schema, items[i].values)
  }

  ghost predicate IsPermutation(order: seq<nat>, n: nat) {
    && |order| == n
    && (forall i :: 0 <= i < n ==> order[i] < n)
    && (forall i, j :: 0 <= i < j < n ==> order[i] != order[j])
    && (forall i :: 0 <= i < n ==> i in order)
  }

  /** A statement only writes where it lands, and only valid rows and patches. */
  lemma StatementLands(schemas: string -> Schema, rows: Rows, changes: ChangeRows, s: DraftStatement, t: Target)
    requires WellTyped(schemas, s)
    ensures var op := DraftOpAt(schemas, rows, changes, s, t);
            op.Some? ==> ValidOp(schemas(t.table), op.value) && Lands(schemas(t.table), Lookup(rows, t), Lookup(changes, t), op.value)
  {
    hide Effective, ValidInsert;
    if s.InsertRows? {
      ValuesForItem(s.items, t.key);
      if DraftOpAt(schemas, rows, changes, s, t).Some? {
        var i :| 0 <= i < |s.items| && s.items[i] == Item(t.key, ValuesFor(s.items, t.key).value);
        assert Target(s.table, s.items[i].key) == t;
      }
    }
  }

  /** Reserving the ledger entry first changes nothing about a write that lands. */
  lemma LockFirst(schema: Schema, base: Option<Row>, slot: Slot, op: DraftOp)
    requires Lands(schema, base, slot.change, op)
    ensures Written(schema, base, LockedSlot(schema, slot), op) == Written(schema, base, slot, op)
  {}

  class Draft {
    const db: TrackedDb
    var changes: ChangeRows

    constructor (db: TrackedDb)
      requires db.Valid()
      ensures Valid() && this.db == db && changes == map[]
    {
      this.db, this.changes := db, map[];
    }

    /** The change rows are typed; the canonical rows may have moved since they were written. */
    ghost predicate Valid()
      reads this, db
    {
      db.Valid() && forall t :: t in changes ==> TypedChange(db.schemas(t.table), changes[t])
    }

    function At(t: Target): Option<Row>
      reads this, db
    {
      EffectiveAt(db.schemas, db.rows, changes, t)
    }

    function SlotAt(t: Target): Slot
      reads this, db
    {
      Slot(Lookup(db.ledger, t), Lookup(changes, t))
    }

    ghost predicate SameCanonical(rows: Rows, tags: set<string>)
      reads db
    {
      db.rows == rows && db.tablesWritten == tags
    }

    lemma TypedAt(t: Target)
      requires Valid()
      ensures TypedState(db.schemas(t.table), Lookup(db.rows, t), Lookup(changes, t))
    {
      hide TypedChange, ValidRow;
    }

    lemma AllTyped()
      requires Valid()
      ensures forall t: Target :: TypedState(db.schemas(t.table), Lookup(db.rows, t), Lookup(changes, t))
    {
      hide TypedState, Draft.Valid;
      forall t: Target
        ensures TypedState(db.schemas(t.table), Lookup(db.rows, t), Lookup(changes, t))
      {
        TypedAt(t);
      }
    }

    method LockRevision(t: Target)
      requires Valid()
      modifies db
      ensures Valid() && SameCanonical(old(db.rows), old(db.tablesWritten))
      ensures forall u :: SlotAt(u) == if u == t then LockedSlot(db.schemas(t.table), old(SlotAt(t))) else old(SlotAt(u))
    {
      hide TypedChange, TrackedDb.Valid;
      db.Lock(t);
      forall u
        ensures Lookup(db.ledger, u) == if u == t then Reserved(db.schemas(t.table), Lookup(old(db.ledger), t)) else Lookup(old(db.ledger), u)
      {
        assert db.At(u) == StateOf(db.rows, db.ledger, u);
      }
    }

    /** The revision lock, then one upsert of one change row. */
    method WriteDraftRow(t: Target, values: Row, intent: Operation) returns (written: bool)
      requires Valid()
      requires var row := WriteRow(db.schemas(t.table), Lookup(db.rows, t), Reserved(db.schemas(t.table), Lookup(db.ledger, t)),
                                   Lookup(changes, t), values, intent);
               row.Some? ==> TypedChange(db.schemas(t.table), row.value)
      modifies db, this`changes
      ensures Valid() && SameCanonical(old(db.rows), old(db.tablesWritten))
      ensures var ledger := Reserved(db.schemas(t.table), Lookup(old(db.ledger), t));
              var row := WriteRow(db.schemas(t.table), Lookup(db.rows, t), ledger, Lookup(old(changes), t), values, intent);
              && written == row.Some?
              && SlotAt(t) == Slot(ledger, if row.Some? then row else Lookup(old(changes), t))
      ensures forall u :: u != t ==> SlotAt(u) == old(SlotAt(u))
    {
      hide WriteRow, TypedChange, TrackedDb.Valid;
      LockRevision(t);
      assert SlotAt(t).ledger == Lookup(db.ledger, t);
      var row := WriteRow(db.schemas(t.table), Lookup(db.rows, t), Lookup(db.ledger, t), Lookup(changes, t), values, intent);
      written := row.Some?;
      if written {
        changes := changes[t := row.value];
      }
    }

    /** One row write of a statement: it lands, or it is an insert of a row that is there. */
    method Write(t: Target, op: DraftOp) returns (written: bool)
      requires Valid() && ValidOp(db.schemas(t.table), op)
      requires !op.InsertOp? ==> At(t).Some?
      modifies db, this`changes
      ensures Valid() && SameCanonical(old(db.rows), old(db.tablesWritten))
      ensures written <==> Lands(db.schemas(t.table), Lookup(db.rows, t), Lookup(old(changes), t), op)
      ensures written ==> SlotAt(t) == Written(db.schemas(t.table), Lookup(db.rows, t), old(SlotAt(t)), op)
      ensures forall u :: u != t ==> SlotAt(u) == old(SlotAt(u))
    {
      hide WriteRow, TypedChange, Effective, TrackedDb.Valid, ValidInsert;
      ghost var slot := SlotAt(t);
      TypedAt(t);
      if Lands(db.schemas(t.table), Lookup(db.rows, t), Lookup(changes, t), op) {
        WriteShows(db.schemas(t.table), Lookup(db.rows, t), slot, op);
      }
      match op
      case InsertOp(row) =>
        InsertRefusedIffPresent(db.schemas(t.table), Lookup(db.rows, t), Reserved(db.schemas(t.table), slot.ledger), slot.change, row);
        written := WriteDraftRow(t, row, Operation.Insert);
      case UpdateOp(patch) => written := WriteDraftRow(t, UpdateValues(db.schemas(t.table), At(t).value, patch), Operation.Update);
      case DeleteOp => written := WriteDraftRow(t, At(t).value, Operation.Delete);
    }

    method LockAll(targets: seq<Target>)
      requires Valid()
      modifies db
      ensures Valid() && SameCanonical(old(db.rows), old(db.tablesWritten))
      ensures forall u :: SlotAt(u) == if u in targets then LockedSlot(db.schemas(u.table), old(SlotAt(u))) else old(SlotAt(u))
    {
      hide TypedChange, TrackedDb.Valid;
      for i := 0 to |targets|
        invariant Valid() && SameCanonical(old(db.rows), old(db.tablesWritten))
        invariant forall u :: SlotAt(u) == if u in targets[..i] then LockedSlot(db.schemas(u.table), old(SlotAt(u))) else old(SlotAt(u))
      {
        assert targets[..i + 1] == targets[..i] + [targets[i]];
        LockRevision(targets[i]);
      }
      assert targets[..|targets|] == targets;
    }

    /** The rows a predicate write finds before it takes any lock. */
    method FindCandidates(table: string, where: Where) returns (candidates: seq<Target>)
      ensures Distinct(candidates)
      ensures forall t :: t in candidates <==> Matches(table, where, t, At(t))
    {
      candidates := Enumerate(set t | t in db.rows.Keys + changes.Keys && Matches(table, where, t, At(t)));
    }

    /** Evaluate the predicate again on the locked rows: exactly the candidates that match now are kept. */
    method RecheckLocked(candidates: seq<Target>, table: string, where: Where) returns (matches: seq<Target>)
      requires Distinct(candidates)
      ensures Distinct(matches)
      ensures forall t :: t in matches <==> t in candidates && Matches(table, where, t, At(t))
    {
      matches := [];
      for i := 0 to |candidates|
        invariant Distinct(matches)
        invariant forall t :: t in matches <==> t in candidates[..i] && Matches(table, where, t, At(t))
      {
        assert candidates[..i + 1] == candidates[..i] + [candidates[i]];
        if Matches(table, where, candidates[i], At(candidates[i])) {
          matches := matches + [candidates[i]];
        }
      }
      assert candidates[..|candidates|] == candidates;
    }

    /**
     * Candidates, locks, recheck. `rivals` are the statements other transactions commit between the
     * candidate read and the locks: a row is written exactly if it matched before them and after.
     */
    method LockedWriteMatches(table: string, where: Where, rivals: seq<TrackedStatement>) returns (matches: seq<Target>)
      requires Valid() && forall i :: 0 <= i < |rivals| ==> TypedStatement(db.schemas, rivals[i])
      modifies db
      ensures Valid() && Distinct(matches)
      ensures forall t :: t in matches <==> Matches(table, where, t, old(At(t))) && Matches(table, where, t, At(t))
      ensures rivals == [] ==> SameCanonical(old(db.rows), old(db.tablesWritten))
      ensures rivals == [] ==> forall u :: SlotAt(u) == if u in matches then LockedSlot(db.schemas(u.table), old(SlotAt(u))) else old(SlotAt(u))
    {
      hide TypedChange, TrackedDb.Valid, Effective, TypedStatement, ApplyAll, OpsOn;
      var candidates := FindCandidates(table, where);
      if rivals != [] {
        ghost var states := db.Run(rivals);
      }
      LockAll(candidates);
      matches := RecheckLocked(candidates, table, where);
    }

    /** The write loop of a predicate statement, over locked matches. */
    method WriteEach(matches: seq<Target>, op: DraftOp)
      requires Valid() && Distinct(matches) && !op.InsertOp?
      requires forall t :: t in matches ==> At(t).Some? && ValidOp(db.schemas(t.table), op)
      modifies db, this`changes
      ensures Valid() && SameCanonical(old(db.rows), old(db.tablesWritten))
      ensures forall t :: SlotAt(t) == if t in matches
                                       then Written(db.schemas(t.table), Lookup(db.rows, t), old(SlotAt(t)), op) else old(SlotAt(t))
    {
      hide TypedChange, TrackedDb.Valid, Effective, Written, ValidOp;
      for i := 0 to |matches|
        invariant Valid() && SameCanonical(old(db.rows), old(db.tablesWritten))
        invariant forall t :: SlotAt(t) == if t in matches[..i]
                                           then Written(db.schemas(t.table), Lookup(db.rows, t), old(SlotAt(t)), op) else old(SlotAt(t))
      {
        var t := matches[i];
        assert matches[..i + 1] == matches[..i] + [t];
        assert t !in matches[..i];
        assert SlotAt(t) == old(SlotAt(t)) && At(t) == old(At(t));
        var written := Write(t, op);
      }
      assert matches[..|matches|] == matches;
    }

    /** Every effective row the predicate matches receives the patch, and nothing else changes. */
    method Update(table: string, where: Where, patch: Row) returns (targets: seq<Target>)
      requires Valid() && ValidPatch(db.schemas(table), patch)
      modifies db, this`changes
      ensures Valid() && SameCanonical(old(db.rows), old(db.tablesWritten))
      ensures forall t :: SlotAt(t) == SlotAfter(db.schemas(t.table), Lookup(db.rows, t), old(SlotAt(t)),
                                                 DraftOpAt(db.schemas, db.rows, old(changes), UpdateRows(table, where, patch), t))
      ensures forall t :: t in targets <==> patch != map[] && Matches(table, where, t, old(At(t)))
      ensures forall t :: At(t) == if patch != map[] && Matches(table, where, t, old(At(t)))
                                   then Some(old(At(t)).value + KnownColumns(db.schemas(table), UpdateValues(db.schemas(table), old(At(t)).value, patch)))
                                   else old(At(t))
    {
      hide TypedChange, TrackedDb.Valid, Effective, Written, ValidPatch, TypedState;
      targets := [];
      AllTyped();
      if patch != map[] {
        targets := LockedWriteMatches(table, where, []);
        label Locked:
        WriteEach(targets, UpdateOp(patch));
        forall t | t in targets
          ensures SlotAt(t) == Written(db.schemas(t.table), Lookup(db.rows, t), old(SlotAt(t)), UpdateOp(patch))
          ensures At(t) == Outcome(db.schemas(t.table), Lookup(db.rows, t), old(SlotAt(t)).ledger, old(At(t)), UpdateOp(patch))
        {
          assert old@Locked(SlotAt(t)) == LockedSlot(db.schemas(t.table), old(SlotAt(t)));
          LockFirst(db.schemas(t.table), Lookup(db.rows, t), old(SlotAt(t)), UpdateOp(patch));
          WriteShows(db.schemas(t.table), Lookup(db.rows, t), old(SlotAt(t)), UpdateOp(patch));
        }
      }
    }

    /** Every match gets a delete marker that also records the row it hid. */
    method Delete(table: string, where: Where) returns (targets: seq<Target>)
      requires Valid()
      modifies db, this`changes
      ensures Valid() && SameCanonical(old(db.rows), old(db.tablesWritten))
      ensures forall t :: SlotAt(t) == SlotAfter(db.schemas(t.table), Lookup(db.rows, t), old(SlotAt(t)),
                                                 DraftOpAt(db.schemas, db.rows, old(changes), DeleteRows(table, where), t))
      ensures forall t :: t in targets <==> Matches(table, where, t, old(At(t)))
      ensures forall t :: At(t) == if Matches(table, where, t, old(At(t))) then None else old(At(t))
    {
      hide TypedChange, TrackedDb.Valid, Effective, Written, TypedState;
      AllTyped();
      targets := LockedWriteMatches(table, where, []);
      label Locked:
      WriteEach(targets, DeleteOp);
      forall t | t in targets
        ensures SlotAt(t) == Written(db.schemas(t.table), Lookup(db.rows, t), old(SlotAt(t)), DeleteOp)
        ensures At(t) == Outcome(db.schemas(t.table), Lookup(db.rows, t), old(SlotAt(t)).ledger, old(At(t)), DeleteOp)
      {
        assert old@Locked(SlotAt(t)) == LockedSlot(db.schemas(t.table), old(SlotAt(t)));
        LockFirst(db.schemas(t.table), Lookup(db.rows, t), old(SlotAt(t)), DeleteOp);
        WriteShows(db.schemas(t.table), Lookup(db.rows, t), old(SlotAt(t)), DeleteOp);
      }
    }

    /** Rows in lock order. A refused row stops the loop; what was written so far is the caller's to roll back. */
    method InsertPrepared(table: string, items: seq<Item>) returns (ok: bool, out: seq<Row>)
      requires Valid() && AllValid(db.schemas(table), items)
      modifies db, this`changes
      ensures Valid() && SameCanonical(old(db.rows), old(db.tablesWritten))
      ensures ok <==> Accepts(db.schemas, db.rows, old(changes), table, items)
      ensures ok ==> forall t :: SlotAt(t) == SlotAfter(db.schemas(t.table), Lookup(db.rows, t), old(SlotAt(t)), BatchOp(table, items, t))
      ensures ok ==> |out| == |items| && forall i :: 0 <= i < |items| ==> At(Target(table, items[i].key)) == Some(out[i])
      ensures ok ==> forall i :: 0 <= i < |items| ==> out[i] == Planned(db.schemas(table), db.rows, old(db.ledger), table, items[i])
    {
      hide TypedChange, TrackedDb.Valid, Effective, Written, Accepts, ValidInsert, BatchOp, Outcome, Planned;
      out := [];
      NoItems(db.schemas, db.rows, changes, table, items);
      for j := 0 to |items|
        invariant Valid() && SameCanonical(old(db.rows), old(db.tablesWritten))
        invariant Accepts(db.schemas, db.rows, old(changes), table, items[..j])
        invariant forall t :: SlotAt(t) == SlotAfter(db.schemas(t.table), Lookup(db.rows, t), old(SlotAt(t)), BatchOp(table, items[..j], t))
        invariant |out| == j && forall i :: 0 <= i < j ==> At(Target(table, items[i].key)) == Some(out[i])
        invariant forall i :: 0 <= i < j ==> out[i] == Planned(db.schemas(table), db.rows, old(db.ledger), table, items[i])
      {
        var t := Target(table, items[j].key);
        NextItem(db.schemas, db.rows, old(changes), table, items, j);
        ghost var slot := SlotAt(t);
        assert BatchOp(table, items[..j], t).None? ==> At(t) == old(At(t));
        TypedAt(t);
        var written := Write(t, InsertOp(items[j].values));
        if !written {
          return false, out;
        }
        WriteShows(db.schemas(table), Lookup(db.rows, t), slot, InsertOp(items[j].values));
        InsertShows(db.schemas(table), db.rows, old(db.ledger), slot, table, items[j]);
        out := out + [At(t).value];
      }
      ok := true;
      assert items[..|items|] == items;
    }

    /**
     * A batch inside one transaction: rows are written in lock order, a refused row rolls the
     * whole batch back, and the effective rows come back in input order.
     */
    method Insert(table: string, items: seq<Item>, lockOrder: seq<nat>) returns (inserted: Option<seq<Row>>)
      requires Valid() && AllValid(db.schemas(table), items) && IsPermutation(lockOrder, |items|)
      modifies db, this`changes
      ensures Valid() && SameCanonical(old(db.rows), old(db.tablesWritten))
      ensures inserted.Some? <==> Accepts(db.schemas, db.rows, old(changes), table, items)
      ensures forall t :: SlotAt(t) == SlotAfter(db.schemas(t.table), Lookup(db.rows, t), old(SlotAt(t)),
                                                 DraftOpAt(db.schemas, db.rows, old(changes), InsertRows(table, items, lockOrder), t))
      ensures inserted.Some? ==> |inserted.value| == |items| && forall i :: 0 <= i < |items| ==>
                && At(Target(table, items[i].key)) == Some(inserted.value[i])
                && inserted.value[i] == Planned(db.schemas(table), db.rows, old(db.ledger), table, items[i])
    {
      hide TypedChange, TrackedDb.Valid, Effective, Written, Accepts, ValidInsert, BatchOp, Planned;
      var ledgerBefore, changesBefore := db.ledger, changes;
      db.ValidIff();
      var prepared := seq(|items|, j requires 0 <= j < |lockOrder| && lockOrder[j] < |items| => items[lockOrder[j]]);
      SameBatch(db.schemas, db.rows, changes, table, items, lockOrder, prepared);
      var ok, out := InsertPrepared(table, prepared);
      if !ok {
        db.ledger, changes := ledgerBefore, changesBefore;
        db.ValidIff();
        return None;
      }
      var result := Reposition(lockOrder, out);
      inserted := Some(result);
      forall i | 0 <= i < |items|
        ensures At(Target(table, items[i].key)) == Some(result[i])
        ensures result[i] == Planned(db.schemas(table), db.rows, old(db.ledger), table, items[i])
      {
        assert i in lockOrder;
        var j :| 0 <= j < |lockOrder| && lockOrder[j] == i;
        assert prepared[j] == items[i];
      }
    }

    method Execute(s: DraftStatement) returns (accepted: bool)
      requires Valid() && WellTyped(db.schemas, s)
      modifies db, this`changes
      ensures Valid() && SameCanonical(old(db.rows), old(db.tablesWritten))
      ensures accepted <==> (s.InsertRows? ==> Accepts(db.schemas, db.rows, old(changes), s.table, s.items))
      ensures forall t :: SlotAt(t) == SlotAfter(db.schemas(t.table), Lookup(db.rows, t), old(SlotAt(t)),
                                                 DraftOpAt(db.schemas, db.rows, old(changes), s, t))
    {
      hide TypedChange, TrackedDb.Valid, SlotAfter, DraftOpAt, Accepts;
      accepted := true;
      match s {
        case InsertRows(table, items, lockOrder) =>
          var inserted := Insert(table, items, lockOrder);
          accepted := inserted.Some?;
        case UpdateRows(table, where, patch) => var targets := Update(table, where, patch);
        case DeleteRows(table, where) => var targets := Delete(table, where);
      }
    }
  }

  lemma InsertShows(schema: Schema, rows: Rows, ledger: Ledger, slot: Slot, table: string, item: Item)
    requires slot.ledger == Lookup(ledger, Target(table, item.key))
    ensures var base := Lookup(rows, Target(table, item.key));
            Outcome(schema, base, slot.ledger, Effective(schema, base, slot.change), InsertOp(item.values)) == Some(Planned(schema, rows, ledger, table, item))
  {}

  // ---------------------------------------------------------------------------------------
  // Batches
  // ---------------------------------------------------------------------------------------

  lemma NoItems(schemas: string -> Schema, rows: Rows, changes: ChangeRows, table: string, items: seq<Item>)
    ensures Accepts(schemas, rows, changes, table, items[..0])
    ensures forall t :: BatchOp(table, items[..0], t).None?
  {}

  /** One more row of a batch. */
  lemma NextItem(schemas: string -> Schema, rows: Rows, changes: ChangeRows, table: string, items: seq<Item>, j: nat)
    requires j < |items|
    ensures var t := Target(table, items[j].key);
            && (Accepts(schemas, rows, changes, table, items[..j + 1])
                <==> && Accepts(schemas, rows, changes, table, items[..j])
                     && EffectiveAt(schemas, rows, changes, t).None? && BatchOp(table, items[..j], t).None?)
            && (forall u :: BatchOp(table, items[..j + 1], u) == if u == t then Some(InsertOp(items[j].values)) else BatchOp(table, items[..j], u))
            && (BatchOp(table, items[..j], t).Some? <==> exists i :: 0 <= i < j && items[i].key == items[j].key)
    ensures Accepts(schemas, rows, changes, table, items) ==> Accepts(schemas, rows, changes, table, items[..j + 1])
  {
    hide EffectiveAt;
    var a, b := items[..j], items[..j + 1];
    assert b == a + [items[j]] && b[..j] == a;
    ValuesForItem(a, items[j].key);
    if Accepts(schemas, rows, changes, table, a) && EffectiveAt(schemas, rows, changes, Target(table, items[j].key)).None?
       && BatchOp(table, a, Target(table, items[j].key)).None? {
      assert forall i :: 0 <= i < j ==> a[i].key != items[j].key;
    }
    assert forall i :: 0 <= i < j ==> a[i] == b[i];
    forall u
      ensures BatchOp(table, b, u) == if u == Target(table, items[j].key) then Some(InsertOp(items[j].values)) else BatchOp(table, a, u)
    {
      assert ValuesFor(b, u.key) == if items[j].key == u.key then Some(items[j].values) else ValuesFor(a, u.key);
    }
  }

  lemma Position(order: seq<nat>, n: nat, i: nat) returns (j: nat)
    requires IsPermutation(order, n) && i < n
    ensures j < n && order[j] == i
  {
    assert i in order;
    j :| 0 <= j < |order| && order[j] == i;
  }

  lemma SameKeys(items: seq<Item>, order: seq<nat>, prepared: seq<Item>)
    requires IsPermutation(order, |items|)
    requires |prepared| == |items| && forall j :: 0 <= j < |items| ==> prepared[j] == items[order[j]]
    ensures DistinctItems(prepared) <==> DistinctItems(items)
  {
    forall i, j | 0 <= i < j < |items|
      ensures DistinctItems(items) ==> prepared[i].key != prepared[j].key
      ensures DistinctItems(prepared) ==> items[i].key != items[j].key
    {
      assert order[i] < order[j] || order[j] < order[i];
      var a := Position(order, |items|, i);
      var b := Position(order, |items|, j);
      assert a < b || b < a;
    }
  }

  /** A batch in another order is accepted alike and writes the same rows. */
  lemma SameBatch(schemas: string -> Schema, rows: Rows, changes: ChangeRows, table: string, items: seq<Item>, order: seq<nat>, prepared: seq<Item>)
    requires IsPermutation(order, |items|)
    requires |prepared| == |items| && forall j :: 0 <= j < |items| ==> prepared[j] == items[order[j]]
    ensures Accepts(schemas, rows, changes, table, prepared) <==> Accepts(schemas, rows, changes, table, items)
    ensures Accepts(schemas, rows, changes, table, items) ==> forall t :: BatchOp(table, prepared, t) == BatchOp(table, items, t)
  {
    hide EffectiveAt, DistinctItems;
    SameKeys(items, order, prepared);
    forall i | 0 <= i < |items|
      ensures items[i] in prepared
    {
      var j := Position(order, |items|, i);
      assert prepared[j] == items[i];
    }
    if DistinctItems(items) {
      forall t
        ensures BatchOp(table, prepared, t) == BatchOp(table, items, t)
      {
        ValuesForItem(items, t.key);
        ValuesForItem(prepared, t.key);
        if ValuesFor(items, t.key).Some? {
          var i :| 0 <= i < |items| && items[i] == Item(t.key, ValuesFor(items, t.key).value);
          var j := Position(order, |items|, i);
          assert prepared[j] == items[i];
        }
      }
    }
  }

  /** Put each result back at the position its row had in the input. */
  method Reposition(order: seq<nat>, out: seq<Row>) returns (result: seq<Row>)
    requires IsPermutation(order, |out|)
    ensures |result| == |out| && forall j :: 0 <= j < |out| ==> result[order[j]] == out[j]
  {
    result := out;
    for j := 0 to |out|
      invariant |result| == |out| && forall i :: 0 <= i < j ==> result[order[i]] == out[i]
    {
      result := result[order[j] := out[j]];
    }
  }
}
