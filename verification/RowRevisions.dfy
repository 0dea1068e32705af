/**
 * Durable row revisions (packages/db/src/row-revisions.ts): one row identity, its canonical
 * revision while the row exists, and its ledger entry, which outlives the row.
 */
module RowRevisions {
  import opened Common

  /** `revision` is the visible token of a present row; `ledger` the durable one. */
  datatype Identity = Identity(revision: Option<int>, ledger: Option<int>)

  datatype Op = Insert | Update | Delete | Lock

  function LedgerOr(s: Identity, fallback: int): int {
    if s.ledger.Some? then s.ledger.value else fallback
  }

  function Max(a: int, b: int): int {
    if a < b then b else a
  }

  /** `lockRowRevision`: reserve the identity, keeping the entry it has. */
  function Reserve(s: Identity): Identity {
    s.(ledger := Some(LedgerOr(s, 0)))
  }

  /** `allocateRowRevision`: the next incarnation token. */
  function Allocate(s: Identity): Identity {
    s.(ledger := Some(LedgerOr(s, 0) + 1))
  }

  /** `preserveRowRevision`: never let the ledger fall behind the last visible token. */
  function Preserve(s: Identity, revision: int): Identity {
    s.(ledger := Some(if s.ledger.Some? then Max(s.ledger.value, revision) else revision))
  }

  /** Whether an operation writes the row: an insert needs it absent, the others present. */
  predicate Writes(s: Identity, op: Op) {
    match op
    case Insert => s.revision.None?
    case Update => s.revision.Some?
    case Delete => s.revision.Some?
    case Lock => false
  }

  function Next(s: Identity, op: Op): Identity {
    if op == Lock then Reserve(s)
    else if !Writes(s, op) then s
    else
      match op
      case Insert => var next := Allocate(s); next.(revision := next.ledger)
      case Update => s.(revision := Some(s.revision.value + 1))
      case Delete => Preserve(Reserve(s), s.revision.value).(revision := None)
      case Lock => s
  }

  function Run(s: Identity, ops: seq<Op>): Identity {
    if ops == [] then s else Next(Run(s, ops[..|ops| - 1]), ops[|ops| - 1])
  }

  /** Visible tokens are positive and the ledger never runs ahead of a visible one. */
  ghost predicate Valid(s: Identity) {
    && (s.ledger.Some? ==> s.ledger.value >= 0)
    && (s.revision.Some? ==> s.revision.value >= 1 && LedgerOr(s, 0) <= s.revision.value)
  }

  /** A clock that every write advances: present rows are even, absent ones odd. */
  function Version(s: Identity): int {
    if s.revision.Some? then 2 * s.revision.value else 2 * LedgerOr(s, 0) + 1
  }

  lemma WritesAdvance(s: Identity, op: Op)
    requires Valid(s)
    ensures Valid(Next(s, op))
    ensures Writes(s, op) ==> Version(Next(s, op)) > Version(s)
    ensures !Writes(s, op) ==> Version(Next(s, op)) == Version(s) && Next(s, op).revision == s.revision
    ensures s.ledger.Some? ==> Next(s, op).ledger.Some? && Next(s, op).ledger.value >= s.ledger.value
  {}

  /** Some operation of the run writes the row. */
  ghost predicate AnyWrite(s: Identity, ops: seq<Op>) {
    exists i :: 0 <= i < |ops| && Writes(Run(s, ops[..i]), ops[i])
  }

  lemma {:induction false} RunAdvances(s: Identity, ops: seq<Op>)
    requires Valid(s)
    ensures Valid(Run(s, ops))
    ensures AnyWrite(s, ops) ==> Version(Run(s, ops)) > Version(s)
    ensures !AnyWrite(s, ops) ==> Version(Run(s, ops)) == Version(s) && Run(s, ops).revision == s.revision
    ensures s.ledger.Some? ==> Run(s, ops).ledger.Some? && Run(s, ops).ledger.value >= s.ledger.value
  {
    if ops != [] {
      var init, last := ops[..|ops| - 1], ops[|ops| - 1];
      RunAdvances(s, init);
      WritesAdvance(Run(s, init), last);
      AnyWriteAppend(s, init, last);
      assert ops == init + [last];
    }
  }

  lemma AnyWriteAppend(s: Identity, ops: seq<Op>, op: Op)
    ensures AnyWrite(s, ops + [op]) <==> AnyWrite(s, ops) || Writes(Run(s, ops), op)
  {
    var longer := ops + [op];
    assert longer[..|ops|] == ops && ops[..|ops|] == ops;
    if AnyWrite(s, ops) {
      var i :| 0 <= i < |ops| && Writes(Run(s, ops[..i]), ops[i]);
      assert longer[..i] == ops[..i] && longer[i] == ops[i];
      assert Writes(Run(s, longer[..i]), longer[i]);
    }
    if Writes(Run(s, ops), op) {
      assert Writes(Run(s, longer[..|ops|]), longer[|ops|]);
    }
    if AnyWrite(s, longer) {
      var i :| 0 <= i < |longer| && Writes(Run(s, longer[..i]), longer[i]);
      assert i < |ops| ==> longer[..i] == ops[..i] && longer[i] == ops[i];
    }
  }

  lemma {:induction false} RunConcat(s: Identity, a: seq<Op>, b: seq<Op>)
    ensures Run(s, a + b) == Run(Run(s, a), b)
  {
    if b == [] {
      assert a + b == a;
    } else {
      assert (a + b)[..|a + b| - 1] == a + b[..|b| - 1];
      RunConcat(s, a, b[..|b| - 1]);
    }
  }

  lemma VersionsClimb(s: Identity, ops: seq<Op>, i: nat, j: nat)
    requires Valid(s) && i <= j <= |ops|
    ensures Valid(Run(s, ops[..i])) && Valid(Run(s, ops[..j]))
    ensures Version(Run(s, ops[..i])) <= Version(Run(s, ops[..j]))
  {
    RunAdvances(s, ops[..i]);
    assert ops[..j] == ops[..i] + ops[i..j];
    RunConcat(s, ops[..i], ops[i..j]);
    RunAdvances(Run(s, ops[..i]), ops[i..j]);
  }

  /** No token is ever reused, deletes and re-inserts included: later writes show larger revisions. */
  lemma RevisionsStrictlyIncrease(s: Identity, ops: seq<Op>, i: nat, j: nat)
    requires Valid(s) && i < j <= |ops|
    requires Writes(Run(s, ops[..j - 1]), ops[j - 1])
    requires Run(s, ops[..i]).revision.Some? && Run(s, ops[..j]).revision.Some?
    ensures Run(s, ops[..i]).revision.value < Run(s, ops[..j]).revision.value
  {
    hide Next, Valid;
    VersionsClimb(s, ops, i, j - 1);
    assert ops[..j][..j - 1] == ops[..j - 1];
    WritesAdvance(Run(s, ops[..j - 1]), ops[j - 1]);
  }

  // ---------------------------------------------------------------------------------------
  // The publish check
  // ---------------------------------------------------------------------------------------

  /** What a draft's first write to a row records, after reserving the identity. */
  datatype RowAnchor = RowAnchor(baseExists: bool, baseRevision: Option<int>)

  datatype Conflict = Created | Deleted | RevisionChanged

  function FirstTouch(s: Identity): RowAnchor {
    RowAnchor(s.revision.Some?, if s.revision.Some? then s.revision else s.ledger)
  }

  /** `assertDraftRowsUnchanged` on one row of a table that has a revision column. */
  function Check(anchor: RowAnchor, s: Identity): Option<Conflict> {
    var revisionConflict :=
      || s.ledger.None?
      || (anchor.baseExists && (s.revision.None? || anchor.baseRevision != s.revision))
      || (!anchor.baseExists && s.revision.None? && anchor.baseRevision != s.ledger);
    if (!anchor.baseExists && s.revision.Some?) || (anchor.baseExists && s.revision.None?) || revisionConflict then
      Some(if !anchor.baseExists && s.revision.Some? then Created
           else if anchor.baseExists && s.revision.None? then Deleted
           else RevisionChanged)
    else None
  }

  /** No ABA: the check accepts exactly when nothing wrote the row since the draft first touched it. */
  lemma AcceptedIffUnwritten(s: Identity, ops: seq<Op>)
    requires Valid(s) && s.ledger.Some?
    ensures Check(FirstTouch(s), Run(s, ops)) == None <==> !AnyWrite(s, ops)
  {
    RunAdvances(s, ops);
    if !AnyWrite(s, ops) {
      UnwrittenKeepsLedger(s, ops);
    }
  }

  lemma {:induction false} UnwrittenKeepsLedger(s: Identity, ops: seq<Op>)
    requires s.ledger.Some? && !AnyWrite(s, ops)
    ensures Run(s, ops) == s
  {
    if ops != [] {
      var init := ops[..|ops| - 1];
      assert ops == init + [ops[|ops| - 1]];
      AnyWriteAppend(s, init, ops[|ops| - 1]);
      UnwrittenKeepsLedger(s, init);
    }
  }

  /** A table with no revision column is checked for presence only, so it can miss an ABA. */
  function CheckPresence(baseExists: bool, present: bool): Option<Conflict> {
    if !baseExists && present then Some(Created)
    else if baseExists && !present then Some(Deleted)
    else None
  }

  /** Presence alone accepts exactly when the row is there again, so it accepts a replacement that the revision check refuses. */
  lemma PresenceAloneMissesReplacement(s: Identity, ops: seq<Op>)
    ensures CheckPresence(s.revision.Some?, Run(s, ops).revision.Some?) == None
       <==> (s.revision.Some? <==> Run(s, ops).revision.Some?)
    ensures s.revision.Some? ==>
              AnyWrite(s, [Delete, Insert]) && CheckPresence(true, Run(s, [Delete, Insert]).revision.Some?) == None
    ensures s.revision.Some? && s.ledger.Some? && Valid(s) ==> Check(FirstTouch(s), Run(s, [Delete, Insert])) == Some(RevisionChanged)
  {
    if s.revision.Some? {
      assert [Delete, Insert][..0] == [] && [Delete, Insert][..1] == [Delete] && [Delete][..0] == [];
      assert Run(s, [Delete]) == Next(s, Delete);
      assert Writes(Run(s, [Delete, Insert][..0]), [Delete, Insert][0]);
      if s.ledger.Some? && Valid(s) {
        AcceptedIffUnwritten(s, [Delete, Insert]);
      }
    }
  }
}
