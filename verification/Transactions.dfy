/**
 * Nested tracked transactions and command batches (packages/db/src/tracker-factory.ts,
 * `transaction`; packages/server/src/apply-commands.ts): only what commits all the way up leaves
 * rows or tags behind, and a preview reports what a commit would.
 */
module Transactions {
  import opened Common

  type World = map<string, int>

  /** A handler's run: its statements, and the transactions it opened, each committed or rolled back. */
  datatype Node =
    | Write(tag: string, key: string, value: int)
    | Read(tag: string)
    | Nested(body: seq<Node>, commits: bool)

  // ---------------------------------------------------------------------------------------
  // The statements that commit all the way up
  // ---------------------------------------------------------------------------------------

  function Committed(nodes: seq<Node>): seq<Node> {
    if nodes == [] then []
    else
      var last := nodes[|nodes| - 1];
      Committed(nodes[..|nodes| - 1])
      + if !last.Nested? then [last] else if last.commits then Committed(last.body) else []
  }

  /** The statement at a path, every transaction on the way to it having committed. */
  predicate CommittedAt(nodes: seq<Node>, path: seq<nat>, leaf: Node)
    decreases |path|
  {
    && path != [] && path[0] < |nodes|
    && var node := nodes[path[0]];
       if node.Nested? then node.commits && CommittedAt(node.body, path[1..], leaf)
       else |path| == 1 && node == leaf
  }

  lemma {:induction false} CommittedHasPath(nodes: seq<Node>, leaf: Node)
    requires leaf in Committed(nodes)
    ensures exists path :: CommittedAt(nodes, path, leaf)
  {
    var init, n := nodes[..|nodes| - 1], |nodes| - 1;
    if leaf in Committed(init) {
      CommittedHasPath(init, leaf);
      var path :| CommittedAt(init, path, leaf);
      assert CommittedAt(nodes, path, leaf);
    } else if nodes[n].Nested? {
      CommittedHasPath(nodes[n].body, leaf);
      var path :| CommittedAt(nodes[n].body, path, leaf);
      assert ([n] + path)[1..] == path;
      assert CommittedAt(nodes, [n] + path, leaf);
    } else {
      assert CommittedAt(nodes, [n], leaf);
    }
  }

  lemma {:induction false} PathIsCommitted(nodes: seq<Node>, path: seq<nat>, leaf: Node)
    requires CommittedAt(nodes, path, leaf)
    ensures leaf in Committed(nodes)
  {
    var n := |nodes| - 1;
    if path[0] < n {
      assert CommittedAt(nodes[..n], path, leaf);
      PathIsCommitted(nodes[..n], path, leaf);
    } else if nodes[n].Nested? {
      PathIsCommitted(nodes[n].body, path[1..], leaf);
    }
  }

  /** A statement survives exactly when every transaction around it commits. */
  lemma CommittedIffAllTheWayUp(nodes: seq<Node>, leaf: Node)
    ensures leaf in Committed(nodes) <==> exists path :: CommittedAt(nodes, path, leaf)
  {
    if leaf in Committed(nodes) {
      CommittedHasPath(nodes, leaf);
    }
    if path :| CommittedAt(nodes, path, leaf) {
      PathIsCommitted(nodes, path, leaf);
    }
  }

  function Effects(world: World, leaves: seq<Node>): World {
    if leaves == [] then world
    else
      var before := Effects(world, leaves[..|leaves| - 1]);
      var last := leaves[|leaves| - 1];
      if last.Write? then before[last.key := last.value] else before
  }

  function Written(leaves: seq<Node>): set<string> {
    set i | 0 <= i < |leaves| && leaves[i].Write? :: leaves[i].tag
  }

  function ReadTags(leaves: seq<Node>): set<string> {
    set i | 0 <= i < |leaves| && leaves[i].Read? :: leaves[i].tag
  }

  lemma {:induction false} EffectsConcat(world: World, a: seq<Node>, b: seq<Node>)
    ensures Effects(world, a + b) == Effects(Effects(world, a), b)
  {
    if b == [] {
      assert a + b == a;
    } else {
      assert (a + b)[..|a + b| - 1] == a + b[..|b| - 1];
      EffectsConcat(world, a, b[..|b| - 1]);
    }
  }

  lemma TagsConcat(a: seq<Node>, b: seq<Node>)
    ensures Written(a + b) == Written(a) + Written(b) && ReadTags(a + b) == ReadTags(a) + ReadTags(b)
  {
    var all := a + b;
    assert forall i :: 0 <= i < |a| ==> all[i] == a[i];
    assert forall i :: 0 <= i < |b| ==> all[|a| + i] == b[i];
    forall tag | tag in Written(a) + Written(b)
      ensures tag in Written(all)
    {
      if tag in Written(a) {
        var i :| 0 <= i < |a| && a[i].Write? && a[i].tag == tag;
        assert all[i].tag == tag;
      } else {
        var i :| 0 <= i < |b| && b[i].Write? && b[i].tag == tag;
        assert all[|a| + i].tag == tag;
      }
    }
    forall tag | tag in ReadTags(a) + ReadTags(b)
      ensures tag in ReadTags(all)
    {
      if tag in ReadTags(a) {
        var i :| 0 <= i < |a| && a[i].Read? && a[i].tag == tag;
        assert all[i].tag == tag;
      } else {
        var i :| 0 <= i < |b| && b[i].Read? && b[i].tag == tag;
        assert all[|a| + i].tag == tag;
      }
    }
  }

  /** The tags that reach the outermost tracker are those of writes with only committed transactions around them. */
  lemma TagsAreOfCommittedWrites(nodes: seq<Node>, tag: string)
    ensures tag in Written(Committed(nodes)) <==> exists path, key, value :: CommittedAt(nodes, path, Write(tag, key, value))
  {
    var leaves := Committed(nodes);
    if tag in Written(leaves) {
      var i :| 0 <= i < |leaves| && leaves[i].Write? && leaves[i].tag == tag;
      CommittedHasPath(nodes, leaves[i]);
      var path :| CommittedAt(nodes, path, leaves[i]);
      assert CommittedAt(nodes, path, Write(tag, leaves[i].key, leaves[i].value));
    }
    if path, key, value :| CommittedAt(nodes, path, Write(tag, key, value)) {
      PathIsCommitted(nodes, path, Write(tag, key, value));
    }
  }

  // ---------------------------------------------------------------------------------------
  // Database and trackers
  // ---------------------------------------------------------------------------------------

  /** A transaction, or a savepoint inside one, remembers the rows it started from. */
  class Database {
    var world: World
    var savepoints: seq<World>

    constructor (world: World)
      ensures this.world == world && savepoints == []
    {
      this.world, savepoints := world, [];
    }

    method Begin()
      modifies this
      ensures world == old(world) && savepoints == old(savepoints) + [world]
    {
      savepoints := savepoints + [world];
    }

    method Release()
      requires savepoints != []
      modifies this
      ensures world == old(world) && savepoints == old(savepoints)[..|old(savepoints)| - 1]
    {
      savepoints := savepoints[..|savepoints| - 1];
    }

    method Rollback()
      requires savepoints != []
      modifies this
      ensures world == old(savepoints)[|old(savepoints)| - 1] && savepoints == old(savepoints)[..|old(savepoints)| - 1]
    {
      world := savepoints[|savepoints| - 1];
      savepoints := savepoints[..|savepoints| - 1];
    }

    method Put(key: string, value: int)
      modifies this`world
      ensures world == old(world)[key := value]
    {
      world := world[key := value];
    }
  }

  class Tracker {
    const db: Database
    var tablesRead: set<string>
    var tablesWritten: set<string>

    constructor (db: Database)
      ensures this.db == db && tablesRead == {} && tablesWritten == {}
    {
      this.db, tablesRead, tablesWritten := db, {}, {};
    }

    /** The state a list of statements and transactions leaves. */
    twostate predicate Did(new leaves: seq<Node>)
      reads this, db
    {
      && db.world == Effects(old(db.world), leaves) && db.savepoints == old(db.savepoints)
      && tablesWritten == old(tablesWritten) + Written(leaves)
      && tablesRead == old(tablesRead) + ReadTags(leaves)
    }

    /** One statement outside any nested transaction. */
    method Execute(leaf: Node)
      requires !leaf.Nested?
      modifies this, db
      ensures Did([leaf])
    {
      OneLeaf(db.world, leaf);
      match leaf
      case Write(tag, key, value) =>
        db.Put(key, value);
        tablesWritten := tablesWritten + {tag};
      case Read(tag) =>
        tablesRead := tablesRead + {tag};
    }

    /** Run statements in order against this tracker. */
    method Run(nodes: seq<Node>)
      modifies this, db
      ensures Did(Committed(nodes))
      decreases nodes, 0
    {
      hide Effects, Written, ReadTags;
      NothingDone(db.world);
      for i := 0 to |nodes|
        invariant Did(Committed(nodes[..i]))
      {
        assert nodes[..i + 1][..i] == nodes[..i];
        ghost var step := if !nodes[i].Nested? then [nodes[i]] else if nodes[i].commits then Committed(nodes[i].body) else [];
        EffectsConcat(old(db.world), Committed(nodes[..i]), step);
        TagsConcat(Committed(nodes[..i]), step);
        if nodes[i].Nested? {
          Transaction(nodes[i].body, nodes[i].commits);
        } else {
          Execute(nodes[i]);
        }
      }
      assert nodes[..|nodes|] == nodes;
    }

    /** A fresh tracker inside; its tags are merged only past the commit. */
    method Transaction(body: seq<Node>, commits: bool)
      modifies this, db
      ensures Did(if commits then Committed(body) else [])
      decreases body, 1
    {
      var inner := new Tracker(db);
      db.Begin();
      inner.Run(body);
      if !commits {
        db.Rollback();
        return;
      }
      db.Release();
      Merge(inner);
    }

    method Merge(inner: Tracker)
      requires inner != this
      modifies this
      ensures tablesRead == old(tablesRead) + inner.tablesRead && tablesWritten == old(tablesWritten) + inner.tablesWritten
    {
      var waiting := inner.tablesRead;
      while waiting != {}
        invariant waiting <= inner.tablesRead && tablesWritten == old(tablesWritten)
        invariant tablesRead == old(tablesRead) + (inner.tablesRead - waiting)
      {
        var t :| t in waiting;
        tablesRead := tablesRead + {t};
        waiting := waiting - {t};
      }
      waiting := inner.tablesWritten;
      while waiting != {}
        invariant waiting <= inner.tablesWritten && tablesRead == old(tablesRead) + inner.tablesRead
        invariant tablesWritten == old(tablesWritten) + (inner.tablesWritten - waiting)
      {
        var t :| t in waiting;
        tablesWritten := tablesWritten + {t};
        waiting := waiting - {t};
      }
    }
  }

  lemma OneLeaf(world: World, leaf: Node)
    ensures Effects(world, [leaf]) == if leaf.Write? then world[leaf.key := leaf.value] else world
    ensures Written([leaf]) == if leaf.Write? then {leaf.tag} else {}
    ensures ReadTags([leaf]) == if leaf.Read? then {leaf.tag} else {}
  {
    assert [leaf][..0] == [] && [leaf][0] == leaf;
  }

  lemma NothingDone(world: World)
    ensures Effects(world, []) == world && Written([]) == {} && ReadTags([]) == {}
  {}

  // ---------------------------------------------------------------------------------------
  // Command batches
  // ---------------------------------------------------------------------------------------

  datatype Command = Command(id: Option<string>, path: string, args: string)

  datatype CommandResult = CommandResult(id: Option<string>, value: string)

  /** What a handler does on given rows, and whether it returns or throws. */
  datatype Ran = Ran(nodes: seq<Node>, outcome: Result<string, string>)

  type Handler = (Command, World) -> Ran

  /** A batch run in order until a command throws. */
  datatype Outcome = Outcome(leaves: seq<Node>, results: seq<CommandResult>, error: Option<string>)

  function RunOf(handler: Handler, world: World, before: Outcome, c: Command): Outcome {
    if before.error.Some? then before
    else
      var ran := handler(c, Effects(world, before.leaves));
      var leaves := before.leaves + Committed(ran.nodes);
      match ran.outcome
      case Ok(value) => Outcome(leaves, before.results + [CommandResult(c.id, value)], None)
      case Err(error) => Outcome(leaves, before.results, Some(error))
  }

  function Batch(handler: Handler, world: World, batch: seq<Command>): Outcome {
    if batch == [] then Outcome([], [], None)
    else RunOf(handler, world, Batch(handler, world, batch[..|batch| - 1]), batch[|batch| - 1])
  }

  lemma {:induction false} ErrorEndsBatch(handler: Handler, world: World, batch: seq<Command>, n: nat)
    requires n <= |batch| && Batch(handler, world, batch[..n]).error.Some?
    ensures Batch(handler, world, batch) == Batch(handler, world, batch[..n])
  {
    if n == |batch| {
      assert batch[..n] == batch;
    } else {
      var init := batch[..|batch| - 1];
      assert init[..n] == batch[..n];
      ErrorEndsBatch(handler, world, init, n);
    }
  }

  /** The rows that command `i` finds: those that all earlier commands left, one after the other. */
  function RowsBefore(handler: Handler, world: World, batch: seq<Command>, i: nat): World
    requires i <= |batch|
  {
    if i == 0 then world
    else
      var rows := RowsBefore(handler, world, batch, i - 1);
      Effects(rows, Committed(handler(batch[i - 1], rows).nodes))
  }

  function Dispatched(handler: Handler, world: World, batch: seq<Command>, i: nat): Result<string, string>
    requires i < |batch|
  {
    handler(batch[i], RowsBefore(handler, world, batch, i)).outcome
  }

  lemma {:induction false} RowsBeforePrefix(handler: Handler, world: World, batch: seq<Command>, n: nat, i: nat)
    requires i <= n <= |batch|
    ensures RowsBefore(handler, world, batch[..n], i) == RowsBefore(handler, world, batch, i)
  {
    if i > 0 {
      RowsBeforePrefix(handler, world, batch, n, i - 1);
    }
  }

  /** The first `n` results are at the places of their commands, under their ids, with what their handlers returned. */
  ghost predicate Answers(handler: Handler, world: World, batch: seq<Command>, results: seq<CommandResult>) {
    && |results| <= |batch|
    && forall i: nat :: i < |results| ==>
         Dispatched(handler, world, batch, i).Ok? && results[i] == CommandResult(batch[i].id, Dispatched(handler, world, batch, i).value)
  }

  lemma AnswersLonger(handler: Handler, world: World, batch: seq<Command>, n: nat, results: seq<CommandResult>)
    requires n <= |batch| && Answers(handler, world, batch[..n], results)
    ensures Answers(handler, world, batch, results)
  {
    forall i: nat | i < |results|
      ensures Dispatched(handler, world, batch[..n], i) == Dispatched(handler, world, batch, i)
    {
      RowsBeforePrefix(handler, world, batch, n, i);
    }
  }

  /** A batch answers its commands one for one, in order, up to the first that throws; the error is that command's. */
  lemma {:induction false} ResultsAnswerCommands(handler: Handler, world: World, batch: seq<Command>)
    ensures var ran := Batch(handler, world, batch);
            && Answers(handler, world, batch, ran.results)
            && (ran.error.None? ==> |ran.results| == |batch| && Effects(world, ran.leaves) == RowsBefore(handler, world, batch, |batch|))
            && (ran.error.Some? ==> |ran.results| < |batch| && Dispatched(handler, world, batch, |ran.results|) == Err(ran.error.value))
  {
    hide Effects, Committed, RowsBefore;
    if batch == [] {
      NothingDone(world);
      NoRowsYet(handler, world, batch);
    } else {
      var n := |batch| - 1;
      var before := Batch(handler, world, batch[..n]);
      ResultsAnswerCommands(handler, world, batch[..n]);
      AnswersLonger(handler, world, batch, n, before.results);
      if before.error.Some? {
        RowsBeforePrefix(handler, world, batch, n, |before.results|);
      } else {
        RowsBeforePrefix(handler, world, batch, n, n);
        OneMoreCommand(handler, world, batch, before);
      }
    }
  }

  lemma NoRowsYet(handler: Handler, world: World, batch: seq<Command>)
    ensures RowsBefore(handler, world, batch, 0) == world
  {}

  lemma OneMoreCommand(handler: Handler, world: World, batch: seq<Command>, before: Outcome)
    requires batch != [] && before.error.None? && |before.results| == |batch| - 1 && Answers(handler, world, batch, before.results)
    requires Effects(world, before.leaves) == RowsBefore(handler, world, batch, |batch| - 1)
    ensures var ran := RunOf(handler, world, before, batch[|batch| - 1]);
            && Answers(handler, world, batch, ran.results)
            && (ran.error.None? ==> |ran.results| == |batch| && Effects(world, ran.leaves) == RowsBefore(handler, world, batch, |batch|))
            && (ran.error.Some? ==> |ran.results| < |batch| && Dispatched(handler, world, batch, |ran.results|) == Err(ran.error.value))
  {
    var n := |batch| - 1;
    var rows := RowsBefore(handler, world, batch, n);
    var ran := handler(batch[n], rows);
    EffectsConcat(world, before.leaves, Committed(ran.nodes));
    RowsAfter(handler, world, batch);
    hide Effects, Committed, RowsBefore, Answers;
    if ran.outcome.Ok? {
      OneMoreAnswer(handler, world, batch, before.results, ran.outcome.value);
    }
  }

  lemma RowsAfter(handler: Handler, world: World, batch: seq<Command>)
    requires batch != []
    ensures var rows := RowsBefore(handler, world, batch, |batch| - 1);
            RowsBefore(handler, world, batch, |batch|) == Effects(rows, Committed(handler(batch[|batch| - 1], rows).nodes))
  {
    hide Effects, Committed;
  }

  lemma OneMoreAnswer(handler: Handler, world: World, batch: seq<Command>, results: seq<CommandResult>, value: string)
    requires |results| < |batch| && Answers(handler, world, batch, results)
    requires Dispatched(handler, world, batch, |results|) == Ok(value)
    ensures Answers(handler, world, batch, results + [CommandResult(batch[|results|].id, value)])
  {
    hide RowsBefore, Dispatched;
  }

  predicate HasAction(isAction: string -> bool, batch: seq<Command>) {
    exists i :: 0 <= i < |batch| && isAction(batch[i].path)
  }

  /** The report a batch earns: its results and the tables its surviving writes touched, or the first failure. */
  function Report(handler: Handler, isAction: string -> bool, world: World, batch: seq<Command>): Option<(seq<CommandResult>, set<string>)> {
    var ran := Batch(handler, world, batch);
    if HasAction(isAction, batch) || ran.error.Some? then None else Some((ran.results, Written(ran.leaves)))
  }

  /** Dispatch in order; `error` is what the first failing command threw. */
  method ApplyAll(tx: Tracker, handler: Handler, batch: seq<Command>) returns (results: seq<CommandResult>, error: Option<string>)
    modifies tx, tx.db
    ensures tx.Did(Batch(handler, old(tx.db.world), batch).leaves)
    ensures results == Batch(handler, old(tx.db.world), batch).results && error == Batch(handler, old(tx.db.world), batch).error
  {
    hide Effects, Written, ReadTags, Committed;
    results, error := [], None;
    ghost var world := tx.db.world;
    NothingDone(world);
    for i := 0 to |batch|
      invariant tx.Did(Batch(handler, world, batch[..i]).leaves)
      invariant results == Batch(handler, world, batch[..i]).results && Batch(handler, world, batch[..i]).error.None?
    {
      assert batch[..i + 1][..i] == batch[..i];
      ghost var before := Batch(handler, world, batch[..i]);
      var ran := handler(batch[i], tx.db.world);
      EffectsConcat(world, before.leaves, Committed(ran.nodes));
      TagsConcat(before.leaves, Committed(ran.nodes));
      tx.Run(ran.nodes);
      match ran.outcome {
        case Ok(value) => results := results + [CommandResult(batch[i].id, value)];
        case Err(thrown) =>
          ErrorEndsBatch(handler, world, batch, i + 1);
          return results, Some(thrown);
      }
    }
    assert batch[..|batch|] == batch;
  }

  method FindAction(isAction: string -> bool, batch: seq<Command>) returns (found: bool)
    ensures found <==> HasAction(isAction, batch)
  {
    for i := 0 to |batch|
      invariant forall j :: 0 <= j < i ==> !isAction(batch[j].path)
    {
      if isAction(batch[i].path) {
        return true;
      }
    }
    found := false;
  }

  /** Commit: one transaction on the given tracker; a failure leaves rows and tags as they were. */
  method CommitCommands(outer: Tracker, handler: Handler, isAction: string -> bool, batch: seq<Command>)
    returns (report: Option<(seq<CommandResult>, set<string>)>)
    modifies outer, outer.db
    ensures report == Report(handler, isAction, old(outer.db.world), batch)
    ensures outer.Did(if report.Some? then Batch(handler, old(outer.db.world), batch).leaves else [])
  {
    NothingDone(outer.db.world);
    hide Effects, Written, ReadTags, Batch, HasAction;
    var refused := FindAction(isAction, batch);
    if refused {
      return None;
    }
    var inner := new Tracker(outer.db);
    outer.db.Begin();
    var results, error := ApplyAll(inner, handler, batch);
    if error.Some? {
      outer.db.Rollback();
      return None;
    }
    outer.db.Release();
    outer.Merge(inner);
    assert inner.tablesWritten == Written(Batch(handler, old(outer.db.world), batch).leaves);
    report := Some((results, inner.tablesWritten));
  }

  /** Preview: the same dispatch, then always a rollback; the caller's tracker is never touched. */
  method PreviewCommands(db: Database, handler: Handler, isAction: string -> bool, batch: seq<Command>)
    returns (report: Option<(seq<CommandResult>, set<string>)>)
    modifies db
    ensures report == Report(handler, isAction, old(db.world), batch)
    ensures db.world == old(db.world) && db.savepoints == old(db.savepoints)
  {
    hide Effects, Written, ReadTags, Batch, HasAction;
    var refused := FindAction(isAction, batch);
    if refused {
      return None;
    }
    var inner := new Tracker(db);
    db.Begin();
    var results, error := ApplyAll(inner, handler, batch);
    db.Rollback();
    assert inner.tablesWritten == Written(Batch(handler, old(db.world), batch).leaves);
    report := if error.Some? then None else Some((results, inner.tablesWritten));
  }

  /** A preview says what the commit that follows it reports, and changes neither rows nor tags by saying so. */
  method PreviewThenCommit(outer: Tracker, handler: Handler, isAction: string -> bool, batch: seq<Command>)
    returns (preview: Option<(seq<CommandResult>, set<string>)>, committed: Option<(seq<CommandResult>, set<string>)>)
    modifies outer, outer.db
    ensures preview == committed == Report(handler, isAction, old(outer.db.world), batch)
    ensures outer.Did(if committed.Some? then Batch(handler, old(outer.db.world), batch).leaves else [])
  {
    hide Report, Batch;
    preview := PreviewCommands(outer.db, handler, isAction, batch);
    committed := CommitCommands(outer, handler, isAction, batch);
  }

  /** Every tag a batch reports was written by a statement of one of its commands with only committed transactions around it. */
  lemma {:induction false} ReportedTagsWereCommitted(handler: Handler, world: World, batch: seq<Command>, tag: string)
    requires tag in Written(Batch(handler, world, batch).leaves)
    ensures exists i, path, key, value ::
              0 <= i < |batch|
              && CommittedAt(handler(batch[i], Effects(world, Batch(handler, world, batch[..i]).leaves)).nodes, path, Write(tag, key, value))
  {
    var n := |batch| - 1;
    if batch == [] {
      assert false;
    } else if tag in Written(Batch(handler, world, batch[..n]).leaves) {
      ReportedTagsWereCommitted(handler, world, batch[..n], tag);
      var i, path, key, value :|
        0 <= i < n
        && CommittedAt(handler(batch[..n][i], Effects(world, Batch(handler, world, batch[..n][..i]).leaves)).nodes, path, Write(tag, key, value));
      assert batch[..n][..i] == batch[..i];
    } else {
      var before := Batch(handler, world, batch[..n]);
      var nodes := handler(batch[n], Effects(world, before.leaves)).nodes;
      TagsConcat(before.leaves, Committed(nodes));
      TagsAreOfCommittedWrites(nodes, tag);
    }
  }
}
