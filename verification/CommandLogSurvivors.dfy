/**
 * Which commands compaction keeps (packages/server/src/draft-command-log.ts), said of the original log
 * alone: by what stands before and after each command.
 */
module CommandLogSurvivors {
  import opened Common
  import opened CommandLog

  /** At position `n` a create of `key` stands that no later create or delete has ended. */
  ghost predicate CreateStands(log: seq<Command>, n: nat, key: string)
    requires n <= |log|
  {
    exists i: nat :: i < n && Names(log[i], key, {Create}) && NoneBetween(log, i, n, key, {Create, Delete})
  }

  ghost predicate NoneBetween(log: seq<Command>, i: nat, n: nat, key: string, kinds: set<Kind>)
    requires n <= |log|
  {
    forall m: nat :: i < m < n ==> !Names(log[m], key, kinds)
  }

  /**
   * A create or update is kept as long as no create or delete of its key follows. A delete that ends a create goes
   * with it; any other stays until another such delete follows.
   */
  ghost predicate Stays(log: seq<Command>, j: nat)
    requires j < |log|
  {
    Keyed(log[j]) ==>
      var key := log[j].compactionKey.value;
      match log[j].kind.value
      case Create => NoneBetween(log, j, |log|, key, {Create, Delete})
      case Update => NoneBetween(log, j, |log|, key, {Create, Delete})
      case Delete =>
        && !CreateStands(log, j, key)
        && forall m: nat :: j < m < |log| && Names(log[m], key, {Delete}) ==> CreateStands(log, m, key)
  }

  ghost function Staying(log: seq<Command>): set<nat> {
    set j: nat | j < |log| && Stays(log, j)
  }

  // ---------------------------------------------------------------------------------------
  // One command more
  // ---------------------------------------------------------------------------------------

  lemma StandsBefore(log: seq<Command>, c: Command, n: nat, key: string)
    requires n <= |log|
    ensures CreateStands(log + [c], n, key) <==> CreateStands(log, n, key)
  {
    var longer := log + [c];
    assert forall i: nat :: i < n ==> longer[i] == log[i];
    if i: nat :| i < n && Names(log[i], key, {Create}) && NoneBetween(log, i, n, key, {Create, Delete}) {
      assert Names(longer[i], key, {Create}) && NoneBetween(longer, i, n, key, {Create, Delete});
    }
    if i: nat :| i < n && Names(longer[i], key, {Create}) && NoneBetween(longer, i, n, key, {Create, Delete}) {
      assert Names(log[i], key, {Create}) && NoneBetween(log, i, n, key, {Create, Delete});
    }
  }

  /** Whether command `d` of the log is taken away when `c` is added. */
  ghost predicate Loses(log: seq<Command>, c: Command, d: Command) {
    Keyed(c) &&
      var key := c.compactionKey.value;
      match c.kind.value
      case Create => Names(d, key, {Create, Update})
      case Update => false
      case Delete => if CreateStands(log, |log|, key) then Names(d, key, {Create, Update}) else Names(d, key, {Update, Delete})
  }

  lemma StaysLonger(log: seq<Command>, c: Command, j: nat)
    requires j < |log|
    ensures Stays(log + [c], j) <==> Stays(log, j) && !Loses(log, c, log[j])
  {
    var longer := log + [c];
    assert forall i: nat :: i < |log| ==> longer[i] == log[i];
    if Keyed(log[j]) {
      var key := log[j].compactionKey.value;
      assert NoneBetween(longer, j, |longer|, key, {Create, Delete})
        <==> NoneBetween(log, j, |log|, key, {Create, Delete}) && !Names(c, key, {Create, Delete}) by {
        NoneLonger(log, c, j, key);
      }
      forall n: nat | n <= |log|
        ensures CreateStands(longer, n, key) <==> CreateStands(log, n, key)
      {
        StandsBefore(log, c, n, key);
      }
      match log[j].kind.value
      case Create => EndedByDelete(log, c, j, key);
      case Update => EndedByDelete(log, c, j, key);
      case Delete => DeleteStaysLonger(log, c, j, key);
    }
  }

  lemma NoneLonger(log: seq<Command>, c: Command, j: nat, key: string)
    requires j < |log|
    ensures NoneBetween(log + [c], j, |log| + 1, key, {Create, Delete})
       <==> NoneBetween(log, j, |log|, key, {Create, Delete}) && !Names(c, key, {Create, Delete})
  {
    var longer := log + [c];
    assert forall i: nat :: i < |log| ==> longer[i] == log[i];
    assert longer[|log|] == c;
  }

  /** A kept create of the key stands, so a delete takes creates and updates alike. */
  lemma EndedByDelete(log: seq<Command>, c: Command, j: nat, key: string)
    requires j < |log| && Names(log[j], key, {Create, Update})
    ensures NoneBetween(log, j, |log|, key, {Create, Delete}) ==> (Names(c, key, {Create, Delete}) <==> Loses(log, c, log[j]))
  {
    if Names(log[j], key, {Create}) && NoneBetween(log, j, |log|, key, {Create, Delete}) {
      assert CreateStands(log, |log|, key);
    }
  }

  lemma DeleteStaysLonger(log: seq<Command>, c: Command, j: nat, key: string)
    requires j < |log| && Names(log[j], key, {Delete})
    requires forall n: nat :: n <= |log| ==> (CreateStands(log + [c], n, key) <==> CreateStands(log, n, key))
    ensures Stays(log + [c], j) <==> Stays(log, j) && !Loses(log, c, log[j])
  {
    hide CreateStands;
    var longer := log + [c];
    assert forall i: nat :: i < |log| ==> longer[i] == log[i];
    assert longer[|log|] == c;
    assert Loses(log, c, log[j]) <==> Names(c, key, {Delete}) && !CreateStands(log, |log|, key);
    if Stays(longer, j) {
      forall m: nat | j < m < |log| && Names(log[m], key, {Delete})
        ensures CreateStands(log, m, key)
      {
        assert Names(longer[m], key, {Delete});
      }
    }
  }

  lemma LastStays(log: seq<Command>, c: Command)
    ensures Stays(log + [c], |log|) <==> !(Keyed(c) && c.kind.value == Delete && CreateStands(log, |log|, c.compactionKey.value))
  {
    assert (log + [c])[|log|] == c;
    if Keyed(c) {
      StandsBefore(log, c, |log|, c.compactionKey.value);
    }
  }

  lemma StandsIfMentioned(log: seq<Command>, key: string)
    ensures Mentions(Pick(log, Staying(log)), key, {Create}) <==> CreateStands(log, |log|, key)
  {
    MentionedByPick(log, Staying(log), key, {Create});
    if j: nat :| j < |log| && j in Staying(log) && Names(log[j], key, {Create}) {
      assert NoneBetween(log, j, |log|, key, {Create, Delete});
    }
    if j: nat :| j < |log| && Names(log[j], key, {Create}) && NoneBetween(log, j, |log|, key, {Create, Delete}) {
      assert j in Staying(log);
    }
  }

  // ---------------------------------------------------------------------------------------
  // The whole log
  // ---------------------------------------------------------------------------------------

  lemma PickNext(log: seq<Command>, c: Command, before: set<nat>, after: set<nat>)
    requires SameBelow(before, after, |log|)
    ensures Pick(log + [c], after) == Pick(log, before) + if !Keyed(c) || |log| in after then [c] else []
  {
    assert (log + [c])[..|log|] == log;
    PickIsLocal(log, before, after);
  }

  /** One absorbed command takes away what `Loses` says. */
  lemma AbsorbKeepsStaying(log: seq<Command>, c: Command)
    ensures Absorb(Pick(log, Staying(log)), c) == Pick(log + [c], Staying(log + [c]))
  {
    var kept := set j: nat | j in Staying(log) && j < |log| && !Loses(log, c, log[j]);
    forall j: nat | j < |log|
      ensures j in kept <==> j in Staying(log + [c])
    {
      StaysLonger(log, c, j);
    }
    PickNext(log, c, kept, Staying(log + [c]));
    LastStays(log, c);
    hide Stays, Pick, Drop, CreateStands;
    if Keyed(c) {
      var key := c.compactionKey.value;
      StandsIfMentioned(log, key);
      DropOfStaying(log, c, kept);
    } else {
      assert kept == Staying(log);
    }
  }

  lemma DropOfStaying(log: seq<Command>, c: Command, kept: set<nat>)
    requires Keyed(c) && kept == set j: nat | j in Staying(log) && j < |log| && !Loses(log, c, log[j])
    ensures var key, staying := c.compactionKey.value, Pick(log, Staying(log));
            Pick(log, kept) ==
            match c.kind.value
            case Create => Drop(staying, key, {Create, Update})
            case Update => staying
            case Delete => Drop(staying, key, if CreateStands(log, |log|, key) then {Create, Update} else {Update, Delete})
  {
    hide Stays, Pick, Drop, CreateStands;
    var key := c.compactionKey.value;
    match c.kind.value
    case Create => DropOfPick(log, Staying(log), kept, key, {Create, Update});
    case Update => assert kept == Staying(log);
    case Delete => DropOfPick(log, Staying(log), kept, key, if CreateStands(log, |log|, key) then {Create, Update} else {Update, Delete});
  }

  /** A compacted log holds exactly the commands that stay, in their order. */
  lemma {:induction false} CompactedIsWhatStays(log: seq<Command>)
    ensures Compacted(log) == Pick(log, Staying(log))
  {
    if log != [] {
      var init, c := log[..|log| - 1], log[|log| - 1];
      CompactedIsWhatStays(init);
      AbsorbKeepsStaying(init, c);
      assert log == init + [c];
    }
  }
}
