/**
 * The draft command log and its compaction (packages/server/src/draft-command-log.ts).
 *
 * `CompactLog` is the source's single pass over three position maps. `Compacted` is the
 * reference: a left fold that rewrites an already compacted log for each further command.
 * The method is proved equal to the fold; what compaction preserves is proved about the fold.
 */
module CommandLog {
  import opened Common

  datatype Kind = Create | Update | Delete

  datatype Command = Command(
    id: Option<string>,
    path: string,
    args: string,
    compactionKey: Option<string>,
    kind: Option<Kind>)

  /** Only a command with both a compaction key and a kind takes part in compaction. */
  predicate Keyed(c: Command) {
    c.compactionKey.Some? && c.kind.Some?
  }

  predicate Names(c: Command, key: string, kinds: set<Kind>) {
    Keyed(c) && c.compactionKey.value == key && c.kind.value in kinds
  }

  predicate Mentions(log: seq<Command>, key: string, kinds: set<Kind>) {
    exists i :: 0 <= i < |log| && Names(log[i], key, kinds)
  }

  /** `log` without the commands of `key` whose kind is in `kinds`. */
  function Drop(log: seq<Command>, key: string, kinds: set<Kind>): seq<Command> {
    if log == [] then []
    else
      var rest := Drop(log[..|log| - 1], key, kinds);
      if Names(log[|log| - 1], key, kinds) then rest else rest + [log[|log| - 1]]
  }

  /** Add one command to a compacted log. */
  function Absorb(log: seq<Command>, c: Command): seq<Command> {
    if !Keyed(c) then log + [c]
    else
      var key := c.compactionKey.value;
      match c.kind.value
      case Create => Drop(log, key, {Create, Update}) + [c]
      case Update => log + [c]
      case Delete =>
        if Mentions(log, key, {Create})
        then Drop(log, key, {Create, Update})
        else Drop(log, key, {Update, Delete}) + [c]
  }

  function AbsorbAll(log: seq<Command>, batch: seq<Command>): seq<Command> {
    if batch == [] then log
    else Absorb(AbsorbAll(log, batch[..|batch| - 1]), batch[|batch| - 1])
  }

  function Compacted(log: seq<Command>): seq<Command> {
    AbsorbAll([], log)
  }

  // ---------------------------------------------------------------------------------------
  // The position maps
  // ---------------------------------------------------------------------------------------

  /** The final filter: every unkeyed command, and the keyed ones at a kept position. */
  function Pick(log: seq<Command>, keep: set<nat>): seq<Command> {
    if log == [] then []
    else
      var rest := Pick(log[..|log| - 1], keep);
      if !Keyed(log[|log| - 1]) || |log| - 1 in keep then rest + [log[|log| - 1]] else rest
  }

  ghost predicate SameBelow(a: set<nat>, b: set<nat>, n: nat) {
    forall j: nat :: j < n ==> (j in a <==> j in b)
  }

  lemma {:induction false} PickIsLocal(log: seq<Command>, a: set<nat>, b: set<nat>)
    requires SameBelow(a, b, |log|)
    ensures Pick(log, a) == Pick(log, b)
  {
    if log != [] {
      PickIsLocal(log[..|log| - 1], a, b);
    }
  }

  lemma {:induction false} DropOfPick(log: seq<Command>, keep: set<nat>, kept: set<nat>, key: string, kinds: set<Kind>)
    requires forall j: nat :: j < |log| ==> (j in kept <==> j in keep && !Names(log[j], key, kinds))
    ensures Drop(Pick(log, keep), key, kinds) == Pick(log, kept)
  {
    if log != [] {
      var init := log[..|log| - 1];
      DropOfPick(init, keep, kept, key, kinds);
      if !Keyed(log[|log| - 1]) || |log| - 1 in keep {
        assert Pick(log, keep)[..|Pick(log, keep)| - 1] == Pick(init, keep);
      }
    }
  }

  lemma {:induction false} MentionedByPick(log: seq<Command>, keep: set<nat>, key: string, kinds: set<Kind>)
    ensures Mentions(Pick(log, keep), key, kinds)
       <==> exists j: nat :: j < |log| && j in keep && Names(log[j], key, kinds)
  {
    if log != [] {
      var init, last := log[..|log| - 1], log[|log| - 1];
      MentionedByPick(init, keep, key, kinds);
      var before, after := Pick(init, keep), Pick(log, keep);
      if Mentions(before, key, kinds) {
        var i :| 0 <= i < |before| && Names(before[i], key, kinds);
        assert Names(after[i], key, kinds);
        var j: nat :| j < |init| && j in keep && Names(init[j], key, kinds);
        assert j < |log| && j in keep && Names(log[j], key, kinds);
      }
      if |log| - 1 in keep && Names(last, key, kinds) {
        assert Names(after[|after| - 1], key, kinds);
      }
      if Mentions(after, key, kinds) && !Mentions(before, key, kinds) {
        var i :| 0 <= i < |after| && Names(after[i], key, kinds);
        assert i >= |before|;
      }
    }
  }

  /** The three maps of the pass: where the surviving commands of each key stand. */
  datatype Positions = Positions(create: map<string, nat>, updates: map<string, seq<nat>>, delete: map<string, nat>)

  /** What the pass does to the maps when it meets command `c` at position `index`. */
  function Record(p: Positions, c: Command, index: nat): Positions {
    if !Keyed(c) then p
    else
      var key := c.compactionKey.value;
      match c.kind.value
      case Create => Positions(p.create[key := index], p.updates - {key}, p.delete)
      case Update => p.(updates := p.updates[key := (if key in p.updates then p.updates[key] else []) + [index]])
      case Delete =>
        if key in p.create
        then Positions(p.create - {key}, p.updates - {key}, p.delete)
        else Positions(p.create, p.updates - {key}, p.delete[key := index])
  }

  /** Position `j` is recorded in the map its kind is tracked by. */
  ghost predicate Survives(log: seq<Command>, p: Positions, j: nat)
    requires j < |log|
  {
    && Keyed(log[j])
    && var key := log[j].compactionKey.value;
       match log[j].kind.value
       case Create => key in p.create && p.create[key] == j
       case Update => key in p.updates && j in p.updates[key]
       case Delete => key in p.delete && p.delete[key] == j
  }

  ghost predicate PointsInto(log: seq<Command>, n: nat, p: Positions)
    requires n <= |log|
  {
    && (forall k :: k in p.create ==> p.create[k] < n && Names(log[p.create[k]], k, {Create}))
    && (forall k :: k in p.delete ==> p.delete[k] < n && Names(log[p.delete[k]], k, {Delete}))
    && (forall k :: k in p.updates ==> forall j :: j in p.updates[k] ==> j < n && Names(log[j], k, {Update}))
  }

  ghost function Kept(log: seq<Command>, n: nat, p: Positions): set<nat>
    requires n <= |log|
  {
    set j: nat | j < n && Survives(log, p, j)
  }

  /** The maps after `n` commands describe the compaction of those `n` commands. */
  ghost predicate Describes(log: seq<Command>, n: nat, p: Positions)
    requires n <= |log|
  {
    PointsInto(log, n, p) && Compacted(log[..n]) == Pick(log[..n], Kept(log, n, p))
  }

  lemma KeptAfterDrop(log: seq<Command>, n: nat, p: Positions, kinds: set<Kind>)
    requires n < |log| && Keyed(log[n])
    requires PointsInto(log, n, p)
    requires kinds == (if log[n].kind.value == Delete && log[n].compactionKey.value !in p.create
                       then {Update, Delete} else {Create, Update})
    requires log[n].kind.value != Update
    ensures Drop(Pick(log[..n], Kept(log, n, p)), log[n].compactionKey.value, kinds)
         == Pick(log[..n], Kept(log, n + 1, Record(p, log[n], n)))
  {
    DropOfPick(log[..n], Kept(log, n, p), Kept(log, n + 1, Record(p, log[n], n)), log[n].compactionKey.value, kinds);
  }

  lemma NamesItself(c: Command)
    requires Keyed(c)
    ensures c.kind.value == Create ==> Names(c, c.compactionKey.value, {Create})
    ensures c.kind.value == Update ==> Names(c, c.compactionKey.value, {Update})
    ensures c.kind.value == Delete ==> Names(c, c.compactionKey.value, {Delete})
  {}

  lemma RecordKeepsPositions(log: seq<Command>, n: nat, p: Positions)
    requires n < |log| && PointsInto(log, n, p)
    ensures PointsInto(log, n + 1, Record(p, log[n], n))
  {
    hide Names;
    if Keyed(log[n]) {
      NamesItself(log[n]);
      if log[n].kind.value == Update {
        RecordUpdateKeepsPositions(log, n, p);
      }
    }
  }

  lemma RecordUpdateKeepsPositions(log: seq<Command>, n: nat, p: Positions)
    requires n < |log| && PointsInto(log, n, p)
    requires Keyed(log[n]) && log[n].kind.value == Update && Names(log[n], log[n].compactionKey.value, {Update})
    ensures PointsInto(log, n + 1, Record(p, log[n], n))
  {
    hide Names;
    var p' := Record(p, log[n], n);
    forall k, j: nat | k in p'.updates && j in p'.updates[k]
      ensures j < n + 1 && Names(log[j], k, {Update})
    {
      if !(k in p.updates && j in p.updates[k]) {
        assert j == n;
      }
    }
  }

  lemma KeptNewest(log: seq<Command>, n: nat, p: Positions)
    requires n < |log| && Keyed(log[n]) && PointsInto(log, n, p)
    ensures n in Kept(log, n + 1, Record(p, log[n], n))
       <==> log[n].kind.value != Delete || log[n].compactionKey.value !in p.create
  {}

  /** One step of the pass is one step of the reference fold. */
  lemma RecordIsAbsorb(log: seq<Command>, n: nat, p: Positions)
    requires n < |log| && Describes(log, n, p)
    ensures Describes(log, n + 1, Record(p, log[n], n))
  {
    var c, prefix, next, p' := log[n], log[..n], log[..n + 1], Record(p, log[n], n);
    RecordKeepsPositions(log, n, p);
    assert next[..n] == prefix && next[n] == c;
    assert Compacted(next) == Absorb(Compacted(prefix), c);
    if !Keyed(c) {
      PickIsLocal(prefix, Kept(log, n, p), Kept(log, n + 1, p'));
    } else {
      KeptNewest(log, n, p);
      var key := c.compactionKey.value;
      if c.kind.value == Update {
        PickIsLocal(prefix, Kept(log, n, p), Kept(log, n + 1, p'));
      } else {
        MentionedByPick(prefix, Kept(log, n, p), key, {Create});
        if key in p.create {
          assert p.create[key] in Kept(log, n, p);
        }
        KeptAfterDrop(log, n, p, if c.kind.value == Delete && key !in p.create then {Update, Delete} else {Create, Update});
      }
    }
  }

  method CompactLog(log: seq<Command>) returns (compacted: seq<Command>)
    ensures compacted == Compacted(log)
  {
    var survivingCreate: map<string, nat> := map[];
    var survivingUpdates: map<string, seq<nat>> := map[];
    var survivingDelete: map<string, nat> := map[];

    for index := 0 to |log|
      invariant Describes(log, index, Positions(survivingCreate, survivingUpdates, survivingDelete))
    {
      var command := log[index];
      ghost var before := Positions(survivingCreate, survivingUpdates, survivingDelete);
      RecordIsAbsorb(log, index, before);
      if Keyed(command) {
        var key := command.compactionKey.value;
        if command.kind.value == Create {
          survivingCreate := survivingCreate[key := index];
          survivingUpdates := survivingUpdates - {key};
        } else if command.kind.value == Update {
          var updates := if key in survivingUpdates then survivingUpdates[key] else [];
          updates := updates + [index];
          survivingUpdates := survivingUpdates[key := updates];
        } else if key in survivingCreate {
          survivingCreate := survivingCreate - {key};
          survivingUpdates := survivingUpdates - {key};
        } else {
          survivingUpdates := survivingUpdates - {key};
          survivingDelete := survivingDelete[key := index];
        }
      }
      assert Positions(survivingCreate, survivingUpdates, survivingDelete) == Record(before, command, index);
    }
    assert log[..|log|] == log;

    ghost var positions := Positions(survivingCreate, survivingUpdates, survivingDelete);
    var survivingIndices := CollectIndices(survivingCreate, survivingUpdates, survivingDelete);
    SurvivorsAreKept(log, positions, survivingIndices);
    PickIsLocal(log, Kept(log, |log|, positions), survivingIndices);
    compacted := [];
    for index := 0 to |log|
      invariant compacted == Pick(log[..index], survivingIndices)
    {
      assert log[..index + 1][..index] == log[..index];
      if !Keyed(log[index]) || index in survivingIndices {
        compacted := compacted + [log[index]];
      }
    }
  }

  lemma SurvivorsAreKept(log: seq<Command>, p: Positions, indices: set<nat>)
    requires PointsInto(log, |log|, p)
    requires AreRecorded(indices, p)
    ensures indices == Kept(log, |log|, p)
  {
    forall j: nat
      ensures j in indices <==> j in Kept(log, |log|, p)
    {
      if j in Kept(log, |log|, p) {
        var key := log[j].compactionKey.value;
        assert (key in p.create && p.create[key] == j) || (key in p.delete && p.delete[key] == j)
            || (key in p.updates && j in p.updates[key]);
      } else if j in indices {
        assert j < |log| && Survives(log, p, j);
      }
    }
  }

  /** `indices` are exactly the positions held by the three maps. */
  ghost predicate AreRecorded(indices: set<nat>, p: Positions) {
    forall j: nat :: j in indices <==> ((exists k :: k in p.create && p.create[k] == j)
                                     || (exists k :: k in p.delete && p.delete[k] == j)
                                     || (exists k :: k in p.updates && j in p.updates[k]))
  }

  method CollectIndices(create: map<string, nat>, updates: map<string, seq<nat>>, delete: map<string, nat>)
    returns (indices: set<nat>)
    ensures AreRecorded(indices, Positions(create, updates, delete))
  {
    indices := create.Values + delete.Values;
    var pending := updates.Keys;
    while pending != {}
      invariant pending <= updates.Keys
      invariant AreRecorded(indices, Positions(create, map k | k in updates.Keys - pending :: updates[k], delete))
    {
      var key :| key in pending;
      ghost var seen := map k | k in updates.Keys - pending :: updates[k];
      ghost var seenNext := map k | k in updates.Keys - (pending - {key}) :: updates[k];
      assert seenNext == seen[key := updates[key]];
      forall j: nat
        ensures (exists k :: k in seenNext && j in seenNext[k])
           <==> (exists k :: k in seen && j in seen[k]) || j in updates[key]
      {
        if j in updates[key] {
          assert j in seenNext[key];
        } else if k :| k in seen && j in seen[k] {
          assert j in seenNext[k];
        }
      }
      indices := indices + set j | j in updates[key];
      pending := pending - {key};
    }
    assert updates == map k | k in updates.Keys - pending :: updates[k];
  }
}
