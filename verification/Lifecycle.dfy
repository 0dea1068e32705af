/**
 * Append, rebase, discard and publish interleaved on one draft
 * (packages/server/src/draft-lifecycle.ts). Every SQL statement is one step; a transaction's
 * writes stay private until its commit, and the final conditional update of the draft row is
 * held until then.
 */
module Lifecycle {
  import opened Common
  import opened DraftOverlay
  import opened PublishOrder
  import opened CommandLog
  import opened DraftStore
  import opened CommandLogMeaning

  const MAX_TRANSACTION_ATTEMPTS: nat := 3

  datatype Stored = Stored(baseVersion: int, revision: nat, hash: Digest, log: seq<Command>, changes: Rows)

  datatype Request = Append(batch: seq<Command>) | Rebase(version: int) | Publish | Discard

  /** `Start` before any read, `Snapped` with a revision read outside the transaction, `Begun` inside it. */
  datatype Stage = Start | Snapped | Begun | Wrote | Locked | Done | Failed

  datatype Op = Op(
    request: Request,
    stage: Stage,
    attempt: nat,
    inner: nat,
    revision: nat,
    log: Option<seq<Command>>,
    seen: Option<Rows>,
    writes: map<Target, Option<Change>>,
    newLog: seq<Command>,
    replaced: nat,
    hash: Digest)

  /** A committed append or rebase, with the rows it wrote. */
  datatype Entry = Entry(op: nat, request: Request, writes: map<Target, Option<Change>>)

  datatype Removal = Removal(op: nat, revision: nat, log: seq<Command>, changes: Rows)

  /** `openedAt` is the version the draft was opened at; `commits` and `removal` record what has committed, in order. */
  datatype State = State(
    store: Option<Stored>,
    lock: Option<nat>,
    ops: seq<Op>,
    openedAt: int,
    commits: seq<Entry>,
    removal: Option<Removal>)

  function Opened(baseVersion: int): State {
    State(Some(Stored(baseVersion, 0, Digest(map[], map[]), [], map[])), None, [], baseVersion, [], None)
  }

  datatype Move =
    | Arrive(request: Request)
    | Snapshot(i: nat)
    | Begin(i: nat)
    | Check(i: nat)
    | ReadLog(i: nat)
    | ReadRows(i: nat)
    | Write(i: nat, writes: map<Target, Option<Change>>)
    | Claim(i: nat)
    | Commit(i: nat)
    | Abort(i: nat, retry: bool)

  // ---------------------------------------------------------------------------------------
  // Steps
  // ---------------------------------------------------------------------------------------

  function NewOp(request: Request): Op {
    Op(request, Start, 0, 1, 0, None, None, map[], [], 0, Digest(map[], map[]))
  }

  predicate Mutates(request: Request) {
    request.Append? || request.Rebase?
  }

  predicate NeedsLog(request: Request) {
    !request.Discard?
  }

  /** Positions past the new log that were there when they were deleted are gone. */
  function Replaced(stored: seq<Command>, written: seq<Command>, deleted: nat): seq<Command> {
    var kept := if |written| < deleted then deleted else |written|;
    if kept < |stored| then written + stored[kept..] else written
  }

  /** The committed draft after this operation's statements, or none when it removes the draft. */
  function After(s: Stored, o: Op): Option<Stored> {
    match o.request
    case Append(_) => Some(Stored(s.baseVersion, s.revision + 1, o.hash, Replaced(s.log, o.newLog, o.replaced), Written(s.changes, o.writes)))
    case Rebase(version) => Some(Stored(version, s.revision + 1, o.hash, s.log, Written(s.changes, o.writes)))
    case Publish => None
    case Discard => None
  }

  function HashAfter(s: Stored, o: Op): Digest {
    match After(s, o)
    case Some(next) => Digest(ByPosition(next.log), next.changes)
    case None => o.hash
  }

  predicate Active(s: State, i: nat, stage: Stage) {
    i < |s.ops| && s.ops[i].stage == stage
  }

  ghost predicate Enabled(s: State, m: Move) {
    match m
    case Arrive(_) => true
    case Snapshot(i) => Active(s, i, Start) && !s.ops[i].request.Append?
    case Begin(i) => Active(s, i, if i < |s.ops| && s.ops[i].request.Append? then Start else Snapped)
    case Check(i) => Active(s, i, Snapped) || Active(s, i, Begun)
    case ReadLog(i) => i < |s.ops| && NeedsLog(s.ops[i].request) && s.ops[i].stage == (if s.ops[i].request.Append? then Begun else Snapped)
    case ReadRows(i) => Active(s, i, Begun)
    case Write(i, writes) =>
      && Active(s, i, Begun) && s.ops[i].seen.Some?
      && (NeedsLog(s.ops[i].request) ==> s.ops[i].log.Some?)
      && (s.ops[i].request.Rebase? ==> s.ops[i].seen.value.Keys <= writes.Keys)
    case Claim(i) => Active(s, i, Wrote) && s.lock.None?
    case Commit(i) => Active(s, i, Locked)
    case Abort(i, retry) => Active(s, i, Begun) || Active(s, i, Wrote) || Active(s, i, Locked)
  }

  function Put(s: State, i: nat, o: Op): State
    requires i < |s.ops|
  {
    s.(ops := s.ops[i := o])
  }

  function Restarted(o: Op): Op {
    if o.request.Append? then o.(stage := Start, log := None, seen := None) else o.(stage := Snapped, seen := None)
  }

  /** The transaction's first read: a missing draft, or a moved one for publish and rebase, is an error. */
  function Began(s: State, o: Op): Op {
    if s.store.None? then o.(stage := Failed)
    else if o.request.Append? then o.(stage := Begun, revision := s.store.value.revision, log := None, seen := None)
    else if !o.request.Discard? && s.store.value.revision != o.revision then o.(stage := Failed)
    else o.(stage := Begun)
  }

  /** Append replaces the log by its compaction with the batch. */
  function WriteStatements(s: State, o: Op, writes: map<Target, Option<Change>>): Op {
    var stored := if s.store.Some? then s.store.value.log else [];
    var next := o.(stage := Wrote, writes := writes, replaced := |stored|);
    if o.request.Append? && o.log.Some? then next.(newLog := Compacted(o.log.value + o.request.batch)) else next
  }

  predicate RevisionHolds(s: State, o: Op) {
    s.store.Some? && s.store.value.revision == o.revision
  }

  /** The conditional update of the draft row: at the expected revision only, retried for append. */
  function Claimed(s: State, i: nat): State
    requires i < |s.ops|
  {
    var o := s.ops[i];
    if RevisionHolds(s, o) then
      Put(s, i, o.(stage := Locked, hash := HashAfter(s.store.value, o))).(lock := Some(i))
    else if o.request.Append? && o.attempt + 1 < MAX_APPEND_ATTEMPTS then
      Put(s, i, Restarted(o).(attempt := o.attempt + 1, inner := 1))
    else Put(s, i, o.(stage := Failed))
  }

  function Committed(s: State, i: nat): State
    requires i < |s.ops| && s.store.Some?
  {
    var o, stored := s.ops[i], s.store.value;
    var done := Put(s, i, o.(stage := Done)).(store := After(stored, o), lock := None);
    match o.request
    case Append(_) => done.(commits := s.commits + [Entry(i, o.request, o.writes)])
    case Rebase(_) => done.(commits := s.commits + [Entry(i, o.request, o.writes)])
    case Publish => done.(removal := Some(Removal(i, stored.revision, stored.log, stored.changes)))
    case Discard => done.(removal := Some(Removal(i, stored.revision, stored.log, stored.changes)))
  }

  function Aborted(s: State, i: nat, retry: bool): State
    requires i < |s.ops|
  {
    var o := s.ops[i];
    var next := if retry && o.inner < MAX_TRANSACTION_ATTEMPTS then Restarted(o).(inner := o.inner + 1) else o.(stage := Failed);
    Put(s, i, next).(lock := if s.lock == Some(i) then None else s.lock)
  }

  predicate IntegrityHolds(s: State) {
    s.store.Some? && s.store.value.hash == Digest(ByPosition(s.store.value.log), s.store.value.changes)
  }

  function Next(s: State, m: Move): State {
    if m.Arrive? then s.(ops := s.ops + [NewOp(m.request)])
    else if m.i >= |s.ops| then s
    else
      var o := s.ops[m.i];
      match m
      case Snapshot(i) =>
        Put(s, i, if s.store.None? then o.(stage := Failed) else o.(stage := Snapped, revision := s.store.value.revision, log := None, seen := None))
      case Begin(i) => Put(s, i, Began(s, o))
      case Check(i) => if IntegrityHolds(s) then s else Put(s, i, o.(stage := Failed))
      case ReadLog(i) => Put(s, i, o.(log := Some(if s.store.Some? then s.store.value.log else [])))
      case ReadRows(i) => Put(s, i, o.(seen := Some(if s.store.Some? then s.store.value.changes else map[])))
      case Write(i, writes) => Put(s, i, WriteStatements(s, o, writes))
      case Claim(i) => Claimed(s, i)
      case Commit(i) => if s.store.Some? then Committed(s, i) else s
      case Abort(i, retry) => Aborted(s, i, retry)
  }

  function Take(s: State, moves: seq<Move>): State
    decreases |moves|
  {
    if moves == [] then s else Take(Next(s, moves[0]), moves[1..])
  }

  ghost predicate Runs(s: State, moves: seq<Move>)
    decreases |moves|
  {
    moves != [] ==> Enabled(s, moves[0]) && Runs(Next(s, moves[0]), moves[1..])
  }

  ghost predicate Reachable(s: State) {
    exists baseVersion, moves :: Runs(Opened(baseVersion), moves) && s == Take(Opened(baseVersion), moves)
  }

  // ---------------------------------------------------------------------------------------
  // The invariant
  // ---------------------------------------------------------------------------------------

  /** Everything appended, in commit order. */
  function Appended(commits: seq<Entry>): seq<Command> {
    if commits == [] then []
    else
      var last := commits[|commits| - 1].request;
      Appended(commits[..|commits| - 1]) + if last.Append? then last.batch else []
  }

  /** The version of the last committed rebase, or the one the draft was opened at. */
  function BaseVersion(openedAt: int, commits: seq<Entry>): int {
    if commits == [] then openedAt
    else
      var last := commits[|commits| - 1].request;
      if last.Rebase? then last.version else BaseVersion(openedAt, commits[..|commits| - 1])
  }

  /** The rows the commits have written, one after the other. */
  function WrittenRows(commits: seq<Entry>): Rows {
    if commits == [] then map[] else Written(WrittenRows(commits[..|commits| - 1]), commits[|commits| - 1].writes)
  }

  ghost predicate StoreInv(s: State) {
    && (s.store.Some? ==> IntegrityHolds(s))
    && (s.store.Some? ==> s.store.value.log == Compacted(Appended(s.commits)))
    && (s.store.Some? ==> s.store.value.revision == |s.commits|)
    && (s.store.Some? ==> s.store.value.baseVersion == BaseVersion(s.openedAt, s.commits))
    && (s.store.Some? ==> s.store.value.changes == WrittenRows(s.commits))
  }

  /** An operation whose revision is still current has read the committed log and rows. */
  ghost predicate ReadInv(store: Stored, o: Op) {
    && (o.stage.Snapped? || o.stage.Begun? || o.stage.Wrote? || o.stage.Locked? ==> o.revision <= store.revision)
    && (o.revision == store.revision && (o.stage.Snapped? || o.stage.Begun? || o.stage.Wrote? || o.stage.Locked?) ==>
          && (o.log.Some? ==> o.log.value == store.log)
          && (o.seen.Some? ==> o.seen.value == store.changes)
          && (o.stage.Wrote? || o.stage.Locked? ==> o.replaced == |store.log|))
  }

  ghost predicate ShapeInv(o: Op) {
    && o.attempt < MAX_APPEND_ATTEMPTS && 1 <= o.inner <= MAX_TRANSACTION_ATTEMPTS
    && (o.request.Append? ==> !o.stage.Snapped?)
    && (o.stage.Wrote? || o.stage.Locked? || (o.stage.Done? && o.request.Publish?) ==>
          && o.seen.Some? && (NeedsLog(o.request) ==> o.log.Some?)
          && (o.request.Append? ==> o.newLog == Compacted(o.log.value + o.request.batch))
          && (o.request.Rebase? ==> o.seen.value.Keys <= o.writes.Keys))
  }

  ghost predicate LockInv(s: State) {
    && (forall i: nat :: i < |s.ops| ==> (s.ops[i].stage.Locked? <==> s.lock == Some(i)))
    && (s.lock.Some? ==>
          && s.lock.value < |s.ops|
          && RevisionHolds(s, s.ops[s.lock.value])
          && s.ops[s.lock.value].hash == HashAfter(s.store.value, s.ops[s.lock.value]))
  }

  ghost predicate CommitInv(s: State) {
    && (forall j :: 0 <= j < |s.commits| ==>
          && s.commits[j].op < |s.ops| && s.ops[s.commits[j].op].stage.Done?
          && s.ops[s.commits[j].op].request == s.commits[j].request && s.ops[s.commits[j].op].writes == s.commits[j].writes
          && Mutates(s.commits[j].request))
    && (forall j, k :: 0 <= j < k < |s.commits| ==> s.commits[j].op != s.commits[k].op)
    && (forall i: nat :: i < |s.ops| && s.ops[i].stage.Done? && Mutates(s.ops[i].request) ==> HasEntry(s.commits, i))
  }

  ghost predicate HasEntry(commits: seq<Entry>, i: nat) {
    exists j :: 0 <= j < |commits| && commits[j].op == i
  }

  ghost predicate RemovalInv(s: State) {
    && (s.store.None? <==> s.removal.Some?)
    && (s.removal.Some? ==>
          var r := s.removal.value;
          && r.op < |s.ops| && s.ops[r.op].stage.Done?
          && (s.ops[r.op].request.Publish? || s.ops[r.op].request.Discard?)
          && s.ops[r.op].revision == r.revision == |s.commits|
          && r.log == Compacted(Appended(s.commits))
          && (s.ops[r.op].request.Publish? ==> s.ops[r.op].log == Some(r.log) && s.ops[r.op].seen == Some(r.changes)))
    && (forall i: nat :: i < |s.ops| && s.ops[i].stage.Done? && !Mutates(s.ops[i].request) ==> s.removal.Some? && s.removal.value.op == i)
  }

  ghost predicate Inv(s: State) {
    && StoreInv(s) && LockInv(s) && CommitInv(s) && RemovalInv(s)
    && (forall i :: 0 <= i < |s.ops| ==> ShapeInv(s.ops[i]) && (s.store.Some? ==> ReadInv(s.store.value, s.ops[i])))
  }

  lemma OpenedIsInv(baseVersion: int)
    ensures Inv(Opened(baseVersion))
  {}

  predicate InFlight(o: Op) {
    !o.stage.Locked? && !o.stage.Done?
  }

  ghost predicate OpInv(store: Option<Stored>, o: Op) {
    ShapeInv(o) && (store.Some? ==> ReadInv(store.value, o))
  }

  /** Moving one operation between unlocked stages disturbs nothing else. */
  lemma PutKeepsInv(s: State, i: nat, o: Op)
    requires Inv(s) && i < |s.ops| && InFlight(s.ops[i]) && InFlight(o) && OpInv(s.store, o)
    ensures Inv(Put(s, i, o))
  {
    hide ShapeInv, ReadInv, StoreInv;
    var next := Put(s, i, o);
    assert CommitInv(next) by {
      forall k: nat | k < |next.ops| && next.ops[k].stage.Done? && Mutates(next.ops[k].request)
        ensures HasEntry(next.commits, k)
      {
        assert s.ops[k].stage.Done?;
      }
    }
    assert StoreInv(next) by { StoreOnly(s, next); }
  }

  lemma StoreOnly(s: State, next: State)
    requires StoreInv(s) && next.store == s.store && next.commits == s.commits && next.openedAt == s.openedAt
    ensures StoreInv(next)
  {}

  /** Releasing the lock is safe once its holder no longer claims it. */
  lemma UnlockKeepsInv(s: State, i: nat, o: Op)
    requires Inv(s) && Active(s, i, Locked) && InFlight(o) && OpInv(s.store, o)
    ensures Inv(Put(s, i, o).(lock := None))
  {
    hide ShapeInv, ReadInv, StoreInv;
    var next := Put(s, i, o).(lock := None);
    assert s.lock == Some(i);
    assert CommitInv(next) by {
      forall k: nat | k < |next.ops| && next.ops[k].stage.Done? && Mutates(next.ops[k].request)
        ensures HasEntry(next.commits, k)
      {
        assert s.ops[k].stage.Done?;
      }
    }
    assert StoreInv(next) by { StoreOnly(s, next); }
  }

  lemma ArriveKeepsInv(s: State, request: Request)
    requires Inv(s)
    ensures Inv(Next(s, Arrive(request)))
  {
    hide StoreInv;
    var next := Next(s, Arrive(request));
    assert StoreInv(next) by { StoreOnly(s, next); }
    assert CommitInv(next) by {
      forall k: nat | k < |next.ops| && next.ops[k].stage.Done? && Mutates(next.ops[k].request)
        ensures HasEntry(next.commits, k)
      {
        assert k < |s.ops| && s.ops[k].stage.Done?;
      }
    }
  }

  /** What an operation becomes by a step that reads or writes privately. */
  lemma ReadStep(s: State, m: Move)
    requires Inv(s) && Enabled(s, m) && (m.Snapshot? || m.Begin? || m.Check? || m.ReadLog? || m.ReadRows? || m.Write?)
    ensures Inv(Next(s, m))
  {
    hide CommitInv, LockInv, RemovalInv, Compacted;
    var o := s.ops[m.i];
    assert OpInv(s.store, o);
    if !(m.Check? && IntegrityHolds(s)) {
      assert Next(s, m) == Put(s, m.i, Next(s, m).ops[m.i]);
      PutKeepsInv(s, m.i, Next(s, m).ops[m.i]);
    }
  }

  lemma ClaimStep(s: State, i: nat)
    requires Inv(s) && Enabled(s, Claim(i))
    ensures Inv(Next(s, Claim(i)))
  {
    hide CommitInv, StoreInv, RemovalInv, Compacted, HashAfter;
    var o := s.ops[i];
    assert OpInv(s.store, o);
    if RevisionHolds(s, o) {
      LockKeepsInv(s, i, o.(stage := Locked, hash := HashAfter(s.store.value, o)));
    } else if o.request.Append? && o.attempt + 1 < MAX_APPEND_ATTEMPTS {
      PutKeepsInv(s, i, Restarted(o).(attempt := o.attempt + 1, inner := 1));
    } else {
      PutKeepsInv(s, i, o.(stage := Failed));
    }
  }

  lemma LockKeepsInv(s: State, i: nat, o: Op)
    requires Inv(s) && s.lock.None? && Active(s, i, Wrote) && RevisionHolds(s, o)
    requires o == s.ops[i].(stage := Locked, hash := HashAfter(s.store.value, s.ops[i]))
    ensures Inv(Put(s, i, o).(lock := Some(i)))
  {
    hide StoreInv, HashAfter, Compacted;
    var next := Put(s, i, o).(lock := Some(i));
    assert CommitInv(next) by {
      forall k: nat | k < |next.ops| && next.ops[k].stage.Done? && Mutates(next.ops[k].request)
        ensures HasEntry(next.commits, k)
      {
        assert s.ops[k].stage.Done?;
      }
    }
    assert StoreInv(next) by { StoreOnly(s, next); }
    HashIgnoresStage(s.store.value, s.ops[i], o);
  }

  lemma HashIgnoresStage(stored: Stored, o: Op, locked: Op)
    requires locked == o.(stage := Locked, hash := HashAfter(stored, o))
    ensures locked.hash == HashAfter(stored, locked)
  {}

  lemma AbortStep(s: State, i: nat, retry: bool)
    requires Inv(s) && Enabled(s, Abort(i, retry))
    ensures Inv(Next(s, Abort(i, retry)))
  {
    hide CommitInv, StoreInv, RemovalInv, Compacted, HashAfter;
    var o := s.ops[i];
    assert OpInv(s.store, o);
    var next := if retry && o.inner < MAX_TRANSACTION_ATTEMPTS then Restarted(o).(inner := o.inner + 1) else o.(stage := Failed);
    if o.stage.Locked? {
      UnlockKeepsInv(s, i, next);
    } else {
      PutKeepsInv(s, i, next);
      assert s.lock != Some(i);
    }
  }

  // ---------------------------------------------------------------------------------------
  // Commits
  // ---------------------------------------------------------------------------------------

  /** A mutation commits only against the revision, log and rows it read. */
  lemma CommitsAgainstWhatItRead(s: State, i: nat)
    requires Inv(s) && Enabled(s, Commit(i))
    ensures s.store.Some?
    ensures var o, stored := s.ops[i], s.store.value;
            && o.revision == stored.revision
            && (NeedsLog(o.request) ==> o.log == Some(stored.log))
            && o.seen == Some(stored.changes)
    ensures var o, stored := s.ops[i], s.store.value;
            o.request.Append? ==> After(stored, o).value.log == Compacted(Appended(s.commits) + o.request.batch)
    ensures var o, stored := s.ops[i], s.store.value;
            Mutates(o.request) ==> After(stored, o).value.hash == Digest(ByPosition(After(stored, o).value.log), After(stored, o).value.changes)
  {
    var o := s.ops[i];
    assert OpInv(s.store, o) && s.lock == Some(i);
    if o.request.Append? {
      CompactionIsIncremental(Appended(s.commits), o.request.batch);
    }
  }

  lemma CommitKeepsOps(s: State, i: nat, next: State)
    requires Inv(s) && i < |s.ops| && next.ops == s.ops[i := s.ops[i].(stage := Done)] && s.ops[i].stage.Locked?
    requires s.store.Some? && (next.store.Some? ==> next.store.value.revision == s.store.value.revision + 1)
    ensures forall k :: 0 <= k < |next.ops| ==> ShapeInv(next.ops[k]) && (next.store.Some? ==> ReadInv(next.store.value, next.ops[k]))
  {
    hide StoreInv, LockInv, CommitInv, RemovalInv, Compacted;
    forall k | 0 <= k < |next.ops|
      ensures ShapeInv(next.ops[k]) && (next.store.Some? ==> ReadInv(next.store.value, next.ops[k]))
    {
      assert OpInv(s.store, s.ops[k]);
    }
  }

  lemma CommitReleasesLock(s: State, i: nat, next: State)
    requires LockInv(s) && i < |s.ops| && s.ops[i].stage.Locked?
    requires next.ops == s.ops[i := s.ops[i].(stage := Done)] && next.lock == None
    ensures LockInv(next)
  {
    hide HashAfter;
  }

  lemma CommitEntersHistory(s: State, i: nat, next: State)
    requires CommitInv(s) && i < |s.ops| && s.ops[i].stage.Locked? && Mutates(s.ops[i].request)
    requires next.ops == s.ops[i := s.ops[i].(stage := Done)] && next.commits == s.commits + [Entry(i, s.ops[i].request, s.ops[i].writes)]
    ensures CommitInv(next)
  {
    forall k: nat | k < |next.ops| && next.ops[k].stage.Done? && Mutates(next.ops[k].request)
      ensures HasEntry(next.commits, k)
    {
      if k == i {
        assert next.commits[|s.commits|].op == i;
      } else {
        assert HasEntry(s.commits, k);
        var j :| 0 <= j < |s.commits| && s.commits[j].op == k;
        assert next.commits[j].op == k;
      }
    }
  }

  /** A committed append keeps the base version; a committed rebase stores the version it was asked for. */
  lemma MutationStores(s: State, i: nat)
    requires Inv(s) && Enabled(s, Commit(i)) && Mutates(s.ops[i].request)
    ensures i < |s.ops| && s.ops[i].stage.Locked? && s.store.Some? && Next(s, Commit(i)) == Committed(s, i)
    ensures StoreInv(Next(s, Commit(i)))
  {
    CommitsAgainstWhatItRead(s, i);
    hide Compacted, Replaced, Written, HashAfter, ShapeInv, ReadInv, ByPosition, CommitInv, LockInv, RemovalInv;
    var next := Next(s, Commit(i));
    assert next == Committed(s, i);
    assert next.commits[..|s.commits|] == s.commits;
    assert Appended(s.commits) + [] == Appended(s.commits);
  }

  lemma MutationCommits(s: State, i: nat)
    requires Inv(s) && Enabled(s, Commit(i)) && Mutates(s.ops[i].request)
    ensures Inv(Next(s, Commit(i)))
  {
    hide Next, Enabled, StoreInv, ShapeInv, ReadInv, CommitInv, LockInv, Committed, Compacted, Appended;
    MutationStores(s, i);
    var next := Next(s, Commit(i));
    MutationShape(s, i);
    CommitReleasesLock(s, i, next);
    CommitKeepsOps(s, i, next);
    CommitEntersHistory(s, i, next);
  }

  lemma MutationShape(s: State, i: nat)
    requires i < |s.ops| && s.store.Some? && Mutates(s.ops[i].request)
    ensures var next := Committed(s, i);
            && next.ops == s.ops[i := s.ops[i].(stage := Done)] && next.lock == None && next.removal == s.removal
            && next.store.Some? && next.store.value.revision == s.store.value.revision + 1
            && next.commits == s.commits + [Entry(i, s.ops[i].request, s.ops[i].writes)]
  {
    hide Written, Replaced;
  }

  lemma DoneKeepsCommits(s: State, i: nat, next: State)
    requires CommitInv(s) && i < |s.ops| && s.ops[i].stage.Locked? && !Mutates(s.ops[i].request)
    requires next.ops == s.ops[i := s.ops[i].(stage := Done)] && next.commits == s.commits
    ensures CommitInv(next)
  {
    forall k: nat | k < |next.ops| && next.ops[k].stage.Done? && Mutates(next.ops[k].request)
      ensures HasEntry(next.commits, k)
    {
      assert s.ops[k].stage.Done?;
    }
  }

  lemma RemovalCommits(s: State, i: nat)
    requires Inv(s) && Enabled(s, Commit(i)) && !Mutates(s.ops[i].request)
    ensures Inv(Next(s, Commit(i)))
  {
    CommitsAgainstWhatItRead(s, i);
    hide Compacted, HashAfter, ShapeInv, ReadInv, ByPosition, Appended;
    var next := Next(s, Commit(i));
    CommitReleasesLock(s, i, next);
    CommitKeepsOps(s, i, next);
    DoneKeepsCommits(s, i, next);
  }

  lemma CommitStep(s: State, i: nat)
    requires Inv(s) && Enabled(s, Commit(i))
    ensures Inv(Next(s, Commit(i)))
  {
    CommitsAgainstWhatItRead(s, i);
    assert Next(s, Commit(i)) == Committed(s, i);
    if Mutates(s.ops[i].request) {
      MutationCommits(s, i);
    } else {
      RemovalCommits(s, i);
    }
  }

  lemma StepKeepsInv(s: State, m: Move)
    requires Inv(s) && Enabled(s, m)
    ensures Inv(Next(s, m))
  {
    hide Inv, Enabled, Next;
    match m
    case Arrive(request) => ArriveKeepsInv(s, request);
    case Claim(i) => ClaimStep(s, i);
    case Commit(i) => CommitStep(s, i);
    case Abort(i, retry) => AbortStep(s, i, retry);
    case Snapshot(_) => ReadStep(s, m);
    case Begin(_) => ReadStep(s, m);
    case Check(_) => ReadStep(s, m);
    case ReadLog(_) => ReadStep(s, m);
    case ReadRows(_) => ReadStep(s, m);
    case Write(_, _) => ReadStep(s, m);
  }

  lemma {:induction false} RunKeepsInv(s: State, moves: seq<Move>)
    requires Inv(s) && Runs(s, moves)
    ensures Inv(Take(s, moves))
    decreases |moves|
  {
    hide Inv, Next, Enabled;
    if moves != [] {
      StepKeepsInv(s, moves[0]);
      RunKeepsInv(Next(s, moves[0]), moves[1..]);
    }
  }

  lemma ReachableKeepsInv(s: State)
    requires Reachable(s)
    ensures Inv(s)
  {
    hide Inv;
    var baseVersion, moves :| Runs(Opened(baseVersion), moves) && s == Take(Opened(baseVersion), moves);
    OpenedIsInv(baseVersion);
    RunKeepsInv(Opened(baseVersion), moves);
  }

  // ---------------------------------------------------------------------------------------
  // Over all interleavings
  // ---------------------------------------------------------------------------------------

  /** The committed log is the compaction of the committed batches in commit order, under its hash. */
  lemma StoredLogIsWhatCommitted(s: State)
    requires Reachable(s) && s.store.Some?
    ensures s.store.value.log == Compacted(Appended(s.commits))
    ensures IntegrityHolds(s)
    ensures s.store.value.revision == |s.commits|
  {
    ReachableKeepsInv(s);
  }

  /** Each append that reports success is in the log's history once, with its own batch; no other is. */
  lemma AppendedExactlyOnce(s: State, i: nat)
    requires Reachable(s) && i < |s.ops| && s.ops[i].request.Append?
    ensures s.ops[i].stage.Done? <==> exists j :: 0 <= j < |s.commits| && s.commits[j] == Entry(i, s.ops[i].request, s.ops[i].writes)
    ensures forall j, k :: 0 <= j < k < |s.commits| ==> s.commits[j].op != s.commits[k].op
  {
    ReachableKeepsInv(s);
    if s.ops[i].stage.Done? {
      assert HasEntry(s.commits, i);
      var j :| 0 <= j < |s.commits| && s.commits[j].op == i;
      assert s.commits[j] == Entry(i, s.ops[i].request, s.ops[i].writes);
    }
  }

  /** A draft is removed once, at the revision its remover snapshotted, and a publication covered everything committed. */
  lemma RemovedAtItsSnapshot(s: State, i: nat)
    requires Reachable(s) && i < |s.ops| && s.ops[i].stage.Done? && !Mutates(s.ops[i].request)
    ensures s.store.None? && s.removal.Some? && s.removal.value.op == i
    ensures s.ops[i].revision == s.removal.value.revision == |s.commits|
    ensures s.ops[i].request.Publish? ==>
              s.ops[i].log == Some(Compacted(Appended(s.commits))) && s.ops[i].seen == Some(s.removal.value.changes)
  {
    ReachableKeepsInv(s);
  }

  /** An integrity check fails only on a missing draft. */
  lemma IntegrityChecksPass(s: State, i: nat)
    requires Reachable(s) && Enabled(s, Check(i))
    ensures Next(s, Check(i)) == s <==> s.store.Some?
  {
    ReachableKeepsInv(s);
  }

  /** A lost conditional update means another operation has committed since this one read the draft. */
  lemma ConflictMeansProgress(s: State, i: nat)
    requires Reachable(s) && Enabled(s, Claim(i)) && !Next(s, Claim(i)).ops[i].stage.Locked?
    ensures s.store.None? || s.ops[i].revision < |s.commits|
    ensures s.ops[i].request.Append? ==>
              Next(s, Claim(i)).ops[i].stage == if s.ops[i].attempt == MAX_APPEND_ATTEMPTS - 1 then Failed else Start
  {
    ReachableKeepsInv(s);
    assert OpInv(s.store, s.ops[i]);
  }

  /** In every reachable state a commit is against exactly what the operation read. */
  lemma EveryCommitIsCurrent(s: State, i: nat)
    requires Reachable(s) && Enabled(s, Commit(i))
    ensures s.store.Some? && s.ops[i].revision == s.store.value.revision
    ensures NeedsLog(s.ops[i].request) ==> s.ops[i].log == Some(s.store.value.log)
    ensures s.ops[i].seen == Some(s.store.value.changes)
    ensures s.ops[i].request.Append? ==>
              Next(s, Commit(i)).store.value.log == Compacted(Appended(s.commits) + s.ops[i].request.batch)
  {
    ReachableKeepsInv(s);
    CommitsAgainstWhatItRead(s, i);
  }

  /** A committed rebase stores the version it was asked for and exactly the rows its replay wrote, and leaves the log alone. */
  lemma RebaseRebuildsRows(s: State, i: nat)
    requires Reachable(s) && Enabled(s, Commit(i)) && s.ops[i].request.Rebase?
    ensures var next := Next(s, Commit(i));
            && next.store.Some? && next.store.value.log == s.store.value.log
            && next.store.value.baseVersion == s.ops[i].request.version
            && next.commits == s.commits + [Entry(i, s.ops[i].request, s.ops[i].writes)]
            && next.store.value.changes == Written(map[], s.ops[i].writes)
  {
    ReachableKeepsInv(s);
    CommitsAgainstWhatItRead(s, i);
    assert OpInv(s.store, s.ops[i]);
  }

  lemma {:induction false} BaseVersionFrom(openedAt: int, commits: seq<Entry>)
    ensures || (BaseVersion(openedAt, commits) == openedAt && forall j :: 0 <= j < |commits| ==> !commits[j].request.Rebase?)
            || exists k :: 0 <= k < |commits| && commits[k].request == Rebase(BaseVersion(openedAt, commits))
                  && forall j :: k < j < |commits| ==> !commits[j].request.Rebase?
  {
    if commits != [] {
      var n := |commits| - 1;
      if commits[n].request.Rebase? {
        assert commits[n].request == Rebase(BaseVersion(openedAt, commits));
      } else {
        BaseVersionFrom(openedAt, commits[..n]);
        if k :| 0 <= k < n && commits[..n][k].request == Rebase(BaseVersion(openedAt, commits[..n]))
                && forall j :: k < j < n ==> !commits[..n][j].request.Rebase? {
          assert commits[k].request == Rebase(BaseVersion(openedAt, commits));
          assert forall j :: k < j < n ==> !commits[..n][j].request.Rebase? && commits[..n][j] == commits[j];
        } else {
          assert forall j :: 0 <= j < n ==> commits[..n][j] == commits[j];
        }
      }
    }
  }

  /** In every reachable state the draft is based on the version of the last committed rebase, or the one it was opened at: no append moves it. */
  lemma BaseVersionIsOfLastRebase(s: State)
    requires Reachable(s) && s.store.Some?
    ensures || (s.store.value.baseVersion == s.openedAt && forall j :: 0 <= j < |s.commits| ==> !s.commits[j].request.Rebase?)
            || exists k :: 0 <= k < |s.commits| && s.commits[k].request == Rebase(s.store.value.baseVersion)
                  && forall j :: k < j < |s.commits| ==> !s.commits[j].request.Rebase?
    ensures forall i: nat :: i < |s.ops| && s.ops[i].stage.Done? && s.ops[i].request.Rebase? ==>
              exists k :: 0 <= k < |s.commits| && s.commits[k] == Entry(i, s.ops[i].request, s.ops[i].writes)
  {
    ReachableKeepsInv(s);
    BaseVersionFrom(s.openedAt, s.commits);
    forall i: nat | i < |s.ops| && s.ops[i].stage.Done? && s.ops[i].request.Rebase?
      ensures exists k :: 0 <= k < |s.commits| && s.commits[k] == Entry(i, s.ops[i].request, s.ops[i].writes)
    {
      assert HasEntry(s.commits, i);
      var k :| 0 <= k < |s.commits| && s.commits[k].op == i;
      assert s.commits[k] == Entry(i, s.ops[i].request, s.ops[i].writes);
    }
  }

  /** Some commit wrote the row, and the last that did left this change, or none. */
  ghost predicate LastWrote(commits: seq<Entry>, t: Target, change: Option<Change>) {
    exists k :: 0 <= k < |commits| && t in commits[k].writes && commits[k].writes[t] == change
                && forall j :: k < j < |commits| ==> t !in commits[j].writes
  }

  lemma {:induction false} RowsOfLastWrites(commits: seq<Entry>, t: Target)
    ensures if exists j :: 0 <= j < |commits| && t in commits[j].writes then LastWrote(commits, t, Lookup(WrittenRows(commits), t))
            else t !in WrittenRows(commits)
  {
    if commits != [] {
      var n := |commits| - 1;
      var init := commits[..n];
      RowsOfLastWrites(init, t);
      if t in commits[n].writes {
        assert Lookup(WrittenRows(commits), t) == commits[n].writes[t];
        assert LastWrote(commits, t, Lookup(WrittenRows(commits), t));
      } else {
        assert Lookup(WrittenRows(commits), t) == Lookup(WrittenRows(init), t);
        if j :| 0 <= j < |commits| && t in commits[j].writes {
          assert t in init[j].writes;
          var k :| 0 <= k < |init| && t in init[k].writes && init[k].writes[t] == Lookup(WrittenRows(init), t)
                   && forall j :: k < j < |init| ==> t !in init[j].writes;
          assert t in commits[k].writes && forall j :: k < j < |commits| ==> t !in commits[j].writes by {
            assert forall j :: k < j < n ==> init[j] == commits[j];
          }
        }
      }
    }
  }

  /** In every reachable state each row of the draft is what the last committed operation that wrote it left; a row none wrote is absent. */
  lemma StoredRowsAreWhatCommitted(s: State, t: Target)
    requires Reachable(s) && s.store.Some?
    ensures if exists j :: 0 <= j < |s.commits| && t in s.commits[j].writes then LastWrote(s.commits, t, Lookup(s.store.value.changes, t))
            else t !in s.store.value.changes
  {
    ReachableKeepsInv(s);
    RowsOfLastWrites(s.commits, t);
  }

  /** The version a draft was opened at is the one its first state stores, in every run. */
  lemma {:induction false} OpenedAt(baseVersion: int, s: State, moves: seq<Move>)
    requires Runs(s, moves) && s.openedAt == baseVersion
    ensures Take(s, moves).openedAt == baseVersion
    decreases |moves|
  {
    hide Enabled;
    if moves != [] {
      OpenedAt(baseVersion, Next(s, moves[0]), moves[1..]);
    }
  }

  /** Rows edited behind the lifecycle's back fail the next integrity check. */
  lemma TamperingIsDetected(s: State, log: seq<Command>, changes: Rows)
    requires Reachable(s) && s.store.Some?
    requires log != s.store.value.log || changes != s.store.value.changes
    ensures !IntegrityHolds(s.(store := Some(s.store.value.(log := log, changes := changes))))
  {
    ReachableKeepsInv(s);
    StoredLogReadsBack(log, log);
    StoredLogReadsBack(s.store.value.log, log);
  }
}
