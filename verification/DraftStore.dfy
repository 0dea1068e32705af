/**
 * The stored draft (packages/server/src/draft-store.ts): a header row under an optimistic
 * revision, the command log kept by position, and the row changes, bound by an integrity hash.
 */
module DraftStore {
  import opened Common
  import opened DraftOverlay
  import opened PublishOrder
  import opened CommandLog
  import CommandLogMeaning

  type Rows = map<Target, Change>

  const MAX_APPEND_ATTEMPTS: nat := 5

  /** What the hash covers. The hash is taken to be collision free, so it is its own preimage. */
  datatype Digest = Digest(commands: map<nat, Command>, changes: Rows)

  datatype Header = Header(baseVersion: int, logRevision: nat, integrityHash: Digest)

  /** The rows that hold `log`, one per position from zero. */
  function ByPosition(log: seq<Command>): map<nat, Command> {
    map i: nat | i < |log| :: log[i]
  }

  /** `SELECT command ... ORDER BY position`: positions below `n`, in order. */
  function Below(commands: map<nat, Command>, n: nat): seq<Command> {
    if n == 0 then []
    else Below(commands, n - 1) + if n - 1 in commands then [commands[n - 1]] else []
  }

  /** `log` lists `commands` in position order, whatever gaps the positions have. */
  ghost predicate InOrder(commands: map<nat, Command>, log: seq<Command>) {
    exists n: nat :: Bounds(commands, n) && log == Below(commands, n)
  }

  ghost predicate Bounds(commands: map<nat, Command>, n: nat) {
    forall p: nat :: p in commands ==> p < n
  }

  lemma {:induction false} BelowByPosition(log: seq<Command>, n: nat)
    requires n <= |log|
    ensures Below(ByPosition(log), n) == log[..n]
  {
    if n > 0 {
      BelowByPosition(log, n - 1);
    }
  }

  lemma {:induction false} GapAddsNothing(commands: map<nat, Command>, n: nat, m: nat)
    requires n <= m && forall p: nat :: n <= p < m ==> p !in commands
    ensures Below(commands, m) == Below(commands, n)
    decreases m - n
  {
    if n < m {
      GapAddsNothing(commands, n, m - 1);
    }
  }

  /** What was stored is exactly what is read back, in order. */
  lemma StoredLogReadsBack(log: seq<Command>, read: seq<Command>)
    ensures InOrder(ByPosition(log), read) <==> read == log
  {
    BelowByPosition(log, |log|);
    assert Bounds(ByPosition(log), |log|) && log[..|log|] == log;
    if InOrder(ByPosition(log), read) {
      var n: nat :| Bounds(ByPosition(log), n) && read == Below(ByPosition(log), n);
      assert n >= |log| by {
        if |log| > 0 { assert |log| - 1 in ByPosition(log); }
      }
      GapAddsNothing(ByPosition(log), |log|, n);
    }
  }

  method Lowest(positions: set<nat>) returns (lowest: nat)
    requires positions != {}
    ensures lowest in positions && forall p :: p in positions ==> lowest <= p
  {
    lowest :| lowest in positions;
    var others := positions - {lowest};
    while others != {}
      invariant others <= positions && lowest in positions
      invariant forall p :: p in positions ==> p in others || lowest <= p
    {
      var p :| p in others;
      if p < lowest {
        lowest := p;
      }
      others := others - {p};
    }
  }

  class StoredDraft {
    var header: Option<Header>
    var commands: map<nat, Command>
    var changes: Rows

    /** A committed draft: the log fills its positions, and the hash is that of the rows. */
    ghost predicate Valid(log: seq<Command>)
      reads this
    {
      && header.Some?
      && commands == ByPosition(log)
      && header.value.integrityHash == Digest(commands, changes)
    }

    constructor Open(baseVersion: int)
      ensures Valid([]) && header.value.baseVersion == baseVersion && header.value.logRevision == 0 && changes == map[]
    {
      header := Some(Header(baseVersion, 0, Digest(map[], map[])));
      commands := map[];
      changes := map[];
    }

    /** Upsert every position, then delete what lies beyond the new log. */
    method ReplaceStoredCommands(log: seq<Command>)
      modifies this`commands
      ensures commands == ByPosition(log)
    {
      for position := 0 to |log|
        invariant forall p: nat :: p < position ==> p in commands && commands[p] == log[p]
      {
        commands := commands[position := log[position]];
      }
      commands := map p | p in commands && p < |log| :: commands[p];
    }

    method ReadStoredCommands() returns (read: seq<Command>)
      ensures InOrder(commands, read)
    {
      read := [];
      var remaining := commands.Keys;
      ghost var n: nat := 0;
      while remaining != {}
        invariant read == Below(commands, n)
        invariant forall p: nat :: p in remaining <==> p in commands && n <= p
      {
        var position := Lowest(remaining);
        GapAddsNothing(commands, n, position);
        read := read + [commands[position]];
        remaining := remaining - {position};
        n := position + 1;
      }
      assert Bounds(commands, n);
    }

    /** The hash is that of the rows as they are. */
    predicate Intact()
      reads this
    {
      header.Some? && header.value.integrityHash == Digest(commands, changes)
    }

    /** A draft sealed over a log and rows passes exactly while it holds that log and those rows; false throws the integrity error. */
    method AssertStoredDraftIntegrity() returns (ok: bool)
      requires header.Some?
      ensures forall log, rows :: header.value.integrityHash == Digest(ByPosition(log), rows) ==>
                (ok <==> commands == ByPosition(log) && changes == rows)
      ensures ok <==> Intact()
    {
      ok := header.value.integrityHash == Digest(commands, changes);
    }

    /** One conditional update: refresh the hash and advance, at the expected revision only. */
    method RefreshStoredDraftIntegrityAndAdvance(expectedRevision: nat) returns (ok: bool)
      modifies this`header
      ensures ok <==> old(header).Some? && old(header).value.logRevision == expectedRevision
      ensures !ok ==> header == old(header)
      ensures ok ==> header == Some(Header(old(header).value.baseVersion, expectedRevision + 1, Digest(commands, changes)))
    {
      ok := header.Some? && header.value.logRevision == expectedRevision;
      if ok {
        header := Some(header.value.(integrityHash := Digest(commands, changes), logRevision := header.value.logRevision + 1));
      }
    }

    method ReplaceStoredDraftBase(baseVersion: int, expectedRevision: nat) returns (ok: bool)
      modifies this`header
      ensures ok <==> old(header).Some? && old(header).value.logRevision == expectedRevision
      ensures !ok ==> header == old(header)
      ensures ok ==> header == Some(Header(baseVersion, expectedRevision + 1, Digest(commands, changes)))
    {
      ok := header.Some? && header.value.logRevision == expectedRevision;
      if ok {
        header := Some(Header(baseVersion, header.value.logRevision + 1, Digest(commands, changes)));
      }
    }

    method DeleteStoredDraftAtRevision(expectedRevision: nat) returns (deleted: bool)
      modifies this`header
      ensures deleted <==> old(header).Some? && old(header).value.logRevision == expectedRevision
      ensures header == if deleted then None else old(header)
    {
      deleted := header.Some? && header.value.logRevision == expectedRevision;
      if deleted {
        header := None;
      }
    }

    /** The end of an append transaction: at the revision it read its writes land, at any other they are rolled back. */
    method CommitAppend(expected: nat, compacted: seq<Command>, writes: map<Target, Option<Change>>) returns (ok: bool)
      modifies this
      ensures ok <==> old(header).Some? && old(header).value.logRevision == expected
      ensures !ok ==> header == old(header) && commands == old(commands) && changes == old(changes)
      ensures ok ==> commands == ByPosition(compacted) && changes == Written(old(changes), writes)
      ensures ok ==> header == Some(Header(old(header).value.baseVersion, expected + 1, Digest(commands, changes)))
    {
      hide ByPosition, Written;
      if header.None? || header.value.logRevision != expected {
        return false;
      }
      ReplaceStoredCommands(compacted);
      changes := Written(changes, writes);
      ok := RefreshStoredDraftIntegrityAndAdvance(expected);
    }

    /** What another session commits between the reads and the conditional update of an attempt. */
    method Interfere(rival: Rival, expected: nat, existing: seq<Command>, ghost log: seq<Command>)
      requires Valid(Compacted(log)) && header.value.logRevision == expected && existing == Compacted(log)
      modifies this
      ensures rival.Nobody? ==> header == old(header) && commands == old(commands) && changes == old(changes)
      ensures rival.Discards? ==> header.None?
      ensures rival.Appends? || rival.Rebases? ==>
                && Valid(Compacted(log + RivalBatch(rival))) && changes == RivalRows(old(changes), [rival])
                && header.value.logRevision == expected + 1
                && header.value.baseVersion == RivalBase(old(header).value.baseVersion, [rival])
    {
      hide Compacted, ByPosition, Written;
      assert RivalBase(header.value.baseVersion, []) == header.value.baseVersion;
      assert [rival][..0] == [] && RivalRows(changes, []) == changes;
      assert log + [] == log;
      match rival {
        case Nobody =>
        case Appends(batch, writes) =>
          CommandLogMeaning.CompactionIsIncremental(log, batch);
          var compacted := CompactLog(existing + batch);
          var won := CommitAppend(expected, compacted, writes);
        case Rebases(baseVersion, rows) =>
          changes := rows;
          var won := ReplaceStoredDraftBase(baseVersion, expected);
        case Discards =>
          commands, changes := map[], map[];
          var won := DeleteStoredDraftAtRevision(expected);
      }
    }

    /** One attempt, of which the integrity check has passed: it lands unless a rival commits first. */
    method TryAppend(batch: seq<Command>, writes: map<Target, Option<Change>>, rival: Rival, ghost log: seq<Command>) returns (ok: bool)
      requires Valid(Compacted(log))
      modifies this
      ensures ok <==> rival.Nobody?
      ensures ok ==> Valid(Compacted(log + batch)) && changes == Written(old(changes), writes)
      ensures rival.Discards? ==> header.None?
      ensures rival.Appends? || rival.Rebases? ==> Valid(Compacted(log + RivalBatch(rival))) && changes == RivalRows(old(changes), [rival])
      ensures !rival.Discards? ==>
                && header.value.logRevision == old(header).value.logRevision + 1
                && header.value.baseVersion == RivalBase(old(header).value.baseVersion, [rival])
    {
      hide Compacted, ByPosition, Below, InOrder, Written, RivalRows, RivalBase;
      NobodyRebases(header.value.baseVersion);
      var expected := header.value.logRevision;
      var existing := ReadStoredCommands();
      StoredLogReadsBack(Compacted(log), existing);
      var compacted := CompactLog(existing + batch);
      CommandLogMeaning.CompactionIsIncremental(log, batch);
      Interfere(rival, expected, existing, log);
      ok := CommitAppend(expected, compacted, writes);
    }

    /**
     * An append with its retries; `rivals[k]` interferes with attempt `k`, which then loses and
     * starts over from what it finds. The batch lands once, after everything the rivals appended
     * and over the rows they left, or not at all.
     */
    method Append(batch: seq<Command>, writes: map<Target, Option<Change>>, rivals: seq<Rival>, ghost appended: seq<Command>)
      returns (outcome: AppendOutcome)
      requires |rivals| == MAX_APPEND_ATTEMPTS && (Intact() ==> commands == ByPosition(Compacted(appended)))
      modifies this
      ensures outcome.Damaged? <==> old(header).Some? && !old(Intact())
      ensures outcome.Damaged? || (outcome.NotFound? && old(header).None?) ==>
                header == old(header) && commands == old(commands) && changes == old(changes)
      ensures outcome.Landed? <==> old(Intact()) && exists k :: 0 <= k < |rivals| && rivals[k].Nobody? && AllCommit(rivals[..k])
      ensures outcome.Landed? ==>
                var k := outcome.attempt;
                && k < |rivals| && rivals[k].Nobody? && AllCommit(rivals[..k])
                && Valid(Compacted(appended + RivalLog(rivals[..k]) + batch))
                && changes == Written(RivalRows(old(changes), rivals[..k]), writes)
                && header.value.logRevision == old(header).value.logRevision + k + 1
                && header.value.baseVersion == RivalBase(old(header).value.baseVersion, rivals[..k])
      ensures outcome.NotFound? && old(header).Some? ==>
                header.None? && exists k :: 0 <= k < |rivals| - 1 && rivals[k].Discards? && AllCommit(rivals[..k])
      ensures outcome.Exhausted? ==> old(Intact())
      ensures outcome.Exhausted? ==> AllCommit(rivals[..|rivals| - 1]) && !rivals[|rivals| - 1].Nobody?
      ensures outcome.Exhausted? && rivals[|rivals| - 1].Discards? ==> header.None?
      ensures outcome.Exhausted? && !rivals[|rivals| - 1].Discards? ==>
                && Valid(Compacted(appended + RivalLog(rivals))) && changes == RivalRows(old(changes), rivals)
                && header.value.baseVersion == RivalBase(old(header).value.baseVersion, rivals)
    {
      hide Compacted, ByPosition, Written, RivalBatch, RivalBase;
      NobodyBases(rivals);
      ghost var log := appended;
      NoRivals(rivals, appended, changes);
      for attempt := 0 to MAX_APPEND_ATTEMPTS
        invariant AllCommit(rivals[..attempt])
        invariant attempt == 0 ==> header == old(header) && commands == old(commands) && changes == old(changes)
        invariant attempt > 0 ==> old(Intact()) && Valid(Compacted(log))
        invariant log == appended + RivalLog(rivals[..attempt]) && changes == RivalRows(old(changes), rivals[..attempt])
        invariant header.Some? && old(header).Some? ==>
                    && header.value.logRevision == old(header).value.logRevision + attempt
                    && header.value.baseVersion == RivalBase(old(header).value.baseVersion, rivals[..attempt])
      {
        if header.None? {
          return NotFound;
        }
        var ok := AssertStoredDraftIntegrity();
        if !ok {
          return Damaged;
        }
        NextRival(rivals, attempt, appended, old(changes));
        NextBase(rivals, attempt);
        ok := TryAppend(batch, writes, rivals[attempt], log);
        if ok {
          NobodyRebases(RivalBase(old(header).value.baseVersion, rivals[..attempt]));
          return Landed(attempt);
        }
        log := log + RivalBatch(rivals[attempt]);
        if rivals[attempt].Discards? {
          return if attempt + 1 < MAX_APPEND_ATTEMPTS then NotFound else Exhausted;
        }
      }
      assert rivals[..|rivals|] == rivals;
      outcome := Exhausted;
    }
  }

  /** Another session's operation on the draft. */
  datatype Rival =
    | Nobody
    | Appends(batch: seq<Command>, writes: map<Target, Option<Change>>)
    | Rebases(baseVersion: int, rows: Rows)
    | Discards

  datatype AppendOutcome = Landed(attempt: nat) | Exhausted | NotFound | Damaged

  /** Each rival moved the draft on and left it there. */
  ghost predicate AllCommit(rivals: seq<Rival>) {
    forall k :: 0 <= k < |rivals| ==> rivals[k].Appends? || rivals[k].Rebases?
  }

  function RivalBatch(rival: Rival): seq<Command> {
    if rival.Appends? then rival.batch else []
  }

  /** Everything the rivals appended. */
  function RivalLog(rivals: seq<Rival>): seq<Command> {
    if rivals == [] then [] else RivalLog(rivals[..|rivals| - 1]) + RivalBatch(rivals[|rivals| - 1])
  }

  /** The rows the rivals leave. */
  function RivalRows(changes: Rows, rivals: seq<Rival>): Rows {
    if rivals == [] then changes
    else
      var before := RivalRows(changes, rivals[..|rivals| - 1]);
      match rivals[|rivals| - 1]
      case Appends(_, writes) => Written(before, writes)
      case Rebases(_, rows) => rows
      case _ => before
  }

  /** The base version the rivals leave: that of the last one that rebases. */
  function RivalBase(baseVersion: int, rivals: seq<Rival>): int {
    if rivals == [] then baseVersion
    else
      var last := rivals[|rivals| - 1];
      if last.Rebases? then last.baseVersion else RivalBase(baseVersion, rivals[..|rivals| - 1])
  }

  lemma NobodyRebases(baseVersion: int)
    ensures RivalBase(baseVersion, [Nobody]) == baseVersion
  {
    assert RivalBase(baseVersion, []) == baseVersion;
    assert [Nobody][..0] == [];
  }

  lemma NobodyBases(rivals: seq<Rival>)
    ensures forall baseVersion: int :: RivalBase(baseVersion, rivals[..0]) == baseVersion
  {}

  lemma NextBase(rivals: seq<Rival>, k: nat)
    requires k < |rivals|
    ensures forall baseVersion: int ::
              RivalBase(baseVersion, rivals[..k + 1]) == RivalBase(RivalBase(baseVersion, rivals[..k]), [rivals[k]])
  {
    assert rivals[..k + 1][..k] == rivals[..k];
    assert [rivals[k]][..0] == [];
  }

  lemma NoRivals(rivals: seq<Rival>, before: seq<Command>, changes: Rows)
    ensures before + RivalLog(rivals[..0]) == before && RivalRows(changes, rivals[..0]) == changes
  {
    assert before + [] == before;
  }

  lemma NextRival(rivals: seq<Rival>, k: nat, before: seq<Command>, changes: Rows)
    requires k < |rivals|
    ensures before + RivalLog(rivals[..k + 1]) == before + RivalLog(rivals[..k]) + RivalBatch(rivals[k])
    ensures RivalRows(changes, rivals[..k + 1]) == RivalRows(RivalRows(changes, rivals[..k]), [rivals[k]])
  {
    assert rivals[..k + 1][..k] == rivals[..k];
    assert [rivals[k]][..0] == [];
  }

  /** The change rows after a handler's upserts and clears. */
  function Written(changes: Rows, writes: map<Target, Option<Change>>): Rows {
    map t | t in changes.Keys + writes.Keys && (t in writes ==> writes[t].Some?)
      :: if t in writes then writes[t].value else changes[t]
  }
}
