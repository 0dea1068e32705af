/**
 * Lock order on the revision ledger (packages/db/src/row-revisions.ts): the byte comparison is a
 * strict total order, and batch writers that reserve identities in that order never deadlock.
 */
module LockOrder {
  import opened Common

  type Byte = x: int | 0 <= x < 256
  type Bytes = seq<Byte>

  datatype SortKey = SortKey(tableKey: Bytes, tenantKey: Bytes, rowKey: Bytes)

  // ---------------------------------------------------------------------------------------
  // The order
  // ---------------------------------------------------------------------------------------

  /** `a` and `b` agree up to `i`, where `a` ends or has the smaller byte. */
  predicate DropsAt(a: Bytes, b: Bytes, i: nat) {
    && i <= |a| && i < |b|
    && (forall x :: 0 <= x < i ==> a[x] == b[x])
    && (i < |a| ==> a[i] < b[i])
  }

  predicate BytesBefore(a: Bytes, b: Bytes) {
    exists i :: 0 <= i < |b| && DropsAt(a, b, i)
  }

  predicate Before(a: SortKey, b: SortKey) {
    || BytesBefore(a.tableKey, b.tableKey)
    || (a.tableKey == b.tableKey && BytesBefore(a.tenantKey, b.tenantKey))
    || (a.tableKey == b.tableKey && a.tenantKey == b.tenantKey && BytesBefore(a.rowKey, b.rowKey))
  }

  method CompareUtf8Bytes(left: Bytes, right: Bytes) returns (difference: int)
    ensures difference < 0 <==> BytesBefore(left, right)
    ensures difference > 0 <==> BytesBefore(right, left)
    ensures difference == 0 <==> left == right
  {
    var length := if |left| < |right| then |left| else |right|;
    for index := 0 to length
      invariant left[..index] == right[..index]
    {
      difference := left[index] as int - right[index] as int;
      if difference != 0 {
        Decided(left, right, index);
        return;
      }
    }
    difference := |left| - |right|;
    assert left[..length] == right[..length];
    if difference == 0 {
      assert left == right;
      BytesOrderIsStrict(left, left);
    } else {
      Decided(left, right, length);
    }
  }

  /** The first place where two byte strings differ decides which one is before. */
  lemma Decided(left: Bytes, right: Bytes, i: nat)
    requires i <= |left| && i <= |right| && left[..i] == right[..i]
    requires i < |left| || i < |right|
    requires i < |left| && i < |right| ==> left[i] != right[i]
    ensures BytesBefore(left, right) <==> i == |left| || (i < |right| && left[i] < right[i])
    ensures BytesBefore(right, left) <==> i == |right| || (i < |left| && right[i] < left[i])
    ensures left != right
  {
    DecidedOneWay(left, right, i);
    DecidedOneWay(right, left, i);
  }

  lemma DecidedOneWay(left: Bytes, right: Bytes, i: nat)
    requires i <= |left| && i <= |right| && left[..i] == right[..i]
    requires i < |left| || i < |right|
    requires i < |left| && i < |right| ==> left[i] != right[i]
    ensures BytesBefore(left, right) <==> i == |left| || (i < |right| && left[i] < right[i])
  {
    assert forall x :: 0 <= x < i ==> left[..i][x] == left[x] && right[..i][x] == right[x];
    if i == |left| || (i < |right| && left[i] < right[i]) {
      assert DropsAt(left, right, i);
    }
  }

  function CommonPrefix(a: Bytes, b: Bytes): (n: nat)
    ensures n <= |a| && n <= |b| && a[..n] == b[..n]
    ensures n < |a| && n < |b| ==> a[n] != b[n]
  {
    if a != [] && b != [] && a[0] == b[0] then
      var m := CommonPrefix(a[1..], b[1..]);
      assert a[..m + 1] == [a[0]] + a[1..][..m] && b[..m + 1] == [b[0]] + b[1..][..m];
      m + 1
    else 0
  }

  lemma BytesOrderIsStrict(a: Bytes, b: Bytes)
    ensures BytesBefore(a, b) ==> a != b && !BytesBefore(b, a)
    ensures a == b || BytesBefore(a, b) || BytesBefore(b, a)
  {
    var n := CommonPrefix(a, b);
    if n == |a| && n == |b| {
      assert a == b;
    } else {
      Decided(a, b, n);
    }
  }

  lemma BytesOrderIsTransitive(a: Bytes, b: Bytes, c: Bytes)
    requires BytesBefore(a, b) && BytesBefore(b, c)
    ensures BytesBefore(a, c)
  {
    var i :| 0 <= i < |b| && DropsAt(a, b, i);
    var j :| 0 <= j < |c| && DropsAt(b, c, j);
    var k := if i < j then i else j;
    assert DropsAt(a, c, k);
  }

  /** `Before` is a strict total order. */
  lemma OrderIsStrictAndTotal(a: SortKey, b: SortKey)
    ensures Before(a, b) ==> a != b && !Before(b, a)
    ensures a == b || Before(a, b) || Before(b, a)
  {
    BytesOrderIsStrict(a.tableKey, b.tableKey);
    BytesOrderIsStrict(a.tenantKey, b.tenantKey);
    BytesOrderIsStrict(a.rowKey, b.rowKey);
  }

  lemma OrderIsTransitive(a: SortKey, b: SortKey, c: SortKey)
    requires Before(a, b) && Before(b, c)
    ensures Before(a, c)
  {
    hide BytesBefore;
    if BytesBefore(a.tableKey, b.tableKey) && BytesBefore(b.tableKey, c.tableKey) {
      BytesOrderIsTransitive(a.tableKey, b.tableKey, c.tableKey);
    } else if BytesBefore(a.tenantKey, b.tenantKey) && BytesBefore(b.tenantKey, c.tenantKey) {
      BytesOrderIsTransitive(a.tenantKey, b.tenantKey, c.tenantKey);
    } else if BytesBefore(a.rowKey, b.rowKey) && BytesBefore(b.rowKey, c.rowKey) {
      BytesOrderIsTransitive(a.rowKey, b.rowKey, c.rowKey);
    }
  }

  /** The sign of the result is the order, whichever component decides. */
  method CompareRowRevisionSortKeys(left: SortKey, right: SortKey) returns (comparison: int)
    ensures comparison < 0 <==> Before(left, right)
    ensures comparison > 0 <==> Before(right, left)
    ensures comparison == 0 <==> left == right
  {
    hide BytesBefore;
    var lefts, rights := [left.tableKey, left.tenantKey, left.rowKey], [right.tableKey, right.tenantKey, right.rowKey];
    for property := 0 to 3
      invariant forall p :: 0 <= p < property ==> lefts[p] == rights[p] && !BytesBefore(lefts[p], rights[p])
    {
      assert property == 0 || property == 1 || property == 2;
      assert property >= 1 ==> lefts[0] == rights[0] && !BytesBefore(lefts[0], rights[0]);
      assert property >= 2 ==> lefts[1] == rights[1] && !BytesBefore(lefts[1], rights[1]);
      BytesOrderIsStrict(lefts[property], rights[property]);
      BytesOrderIsStrict(rights[property], lefts[property]);
      comparison := CompareUtf8Bytes(lefts[property], rights[property]);
      if comparison != 0 {
        return;
      }
    }
    assert lefts[0] == rights[0] && lefts[1] == rights[1] && lefts[2] == rights[2];
    comparison := 0;
  }

  // ---------------------------------------------------------------------------------------
  // Writers that lock in order
  // ---------------------------------------------------------------------------------------

  /** One batch: the identities it locks, in order, and how many it holds until it ends. */
  datatype Writer = Writer(plan: seq<SortKey>, taken: nat, ended: bool)

  type State = seq<Writer>

  ghost predicate Sorted(plan: seq<SortKey>) {
    forall i, j :: 0 <= i < j < |plan| ==> !Before(plan[j], plan[i])
  }

  predicate Holds(w: Writer, k: SortKey) {
    !w.ended && w.taken <= |w.plan| && k in w.plan[..w.taken]
  }

  /** `i` cannot go on until `j` ends. */
  predicate WaitsFor(s: State, i: nat, j: nat) {
    && i < |s| && j < |s| && i != j
    && !s[i].ended && s[i].taken < |s[i].plan|
    && Holds(s[j], s[i].plan[s[i].taken])
  }

  ghost predicate Blocked(s: State, i: nat) {
    exists j: nat :: WaitsFor(s, i, j)
  }

  datatype Move = Begin(plan: seq<SortKey>) | Acquire(i: nat) | End(i: nat)

  /** Begin a sorted batch, take the next lock when nobody else holds it, or commit or roll back. */
  ghost predicate Enabled(s: State, m: Move) {
    match m
    case Begin(plan) => Sorted(plan)
    case Acquire(i) => i < |s| && !s[i].ended && s[i].taken < |s[i].plan| && !Blocked(s, i)
    case End(i) => i < |s| && !s[i].ended
  }

  function Take(s: State, m: Move): State {
    match m
    case Begin(plan) => s + [Writer(plan, 0, false)]
    case Acquire(i) => if i < |s| then s[i := s[i].(taken := s[i].taken + 1)] else s
    case End(i) => if i < |s| then s[i := s[i].(ended := true)] else s
  }

  function TakeAll(s: State, moves: seq<Move>): State
    decreases |moves|
  {
    if moves == [] then s else TakeAll(Take(s, moves[0]), moves[1..])
  }

  ghost predicate Runs(s: State, moves: seq<Move>)
    decreases |moves|
  {
    moves != [] ==> Enabled(s, moves[0]) && Runs(Take(s, moves[0]), moves[1..])
  }

  ghost predicate Reachable(s: State) {
    exists moves :: Runs([], moves) && s == TakeAll([], moves)
  }

  /** Plans are sorted and no identity is held twice. */
  ghost predicate Inv(s: State) {
    && (forall i :: 0 <= i < |s| ==> s[i].taken <= |s[i].plan| && Sorted(s[i].plan))
    && (forall i, j, k :: 0 <= i < |s| && 0 <= j < |s| && Holds(s[i], k) && Holds(s[j], k) ==> i == j)
  }

  lemma MoveKeepsInv(s: State, m: Move)
    requires Inv(s) && Enabled(s, m)
    ensures Inv(Take(s, m))
  {
    var after := Take(s, m);
    forall i, j, k | 0 <= i < |after| && 0 <= j < |after| && Holds(after[i], k) && Holds(after[j], k)
      ensures i == j
    {
      match m
      case Begin(plan) =>
      case End(e) =>
        assert Holds(s[i], k) && Holds(s[j], k);
      case Acquire(a) =>
        var w := s[a];
        assert w.plan[..w.taken + 1] == w.plan[..w.taken] + [w.plan[w.taken]];
        assert (i != a ==> !WaitsFor(s, a, i)) && (j != a ==> !WaitsFor(s, a, j));
    }
  }

  lemma {:induction false} RunKeepsInv(s: State, moves: seq<Move>)
    requires Inv(s) && Runs(s, moves)
    ensures Inv(TakeAll(s, moves))
    decreases |moves|
  {
    if moves != [] {
      MoveKeepsInv(s, moves[0]);
      RunKeepsInv(Take(s, moves[0]), moves[1..]);
    }
  }

  lemma ReachableKeepsInv(s: State)
    requires Reachable(s)
    ensures Inv(s)
  {
    var moves :| Runs([], moves) && s == TakeAll([], moves);
    RunKeepsInv([], moves);
  }

  predicate Unfinished(s: State, i: nat) {
    i < |s| && !s[i].ended && s[i].taken < |s[i].plan|
  }

  function Wanted(s: State, i: nat): SortKey
    requires Unfinished(s, i)
  {
    s[i].plan[s[i].taken]
  }

  predicate WantsBefore(s: State, i: nat, j: nat) {
    Unfinished(s, i) && Unfinished(s, j) && Before(Wanted(s, i), Wanted(s, j))
  }

  lemma WantingIsStrict(s: State, i: nat, j: nat, k: nat)
    ensures !WantsBefore(s, i, i)
    ensures WantsBefore(s, i, j) && WantsBefore(s, j, k) ==> WantsBefore(s, i, k)
  {
    if Unfinished(s, i) {
      OrderIsStrictAndTotal(Wanted(s, i), Wanted(s, i));
    }
    if WantsBefore(s, i, j) && WantsBefore(s, j, k) {
      OrderIsTransitive(Wanted(s, i), Wanted(s, j), Wanted(s, k));
    }
  }

  /** Along the waits-for relation the wanted identity strictly climbs. */
  lemma WaitingClimbs(s: State, i: nat, j: nat)
    requires Inv(s) && WaitsFor(s, i, j) && Blocked(s, j)
    ensures WantsBefore(s, i, j)
  {
    var k: nat :| WaitsFor(s, j, k);
    var wanted := Wanted(s, i);
    var m :| 0 <= m < s[j].taken && s[j].plan[m] == wanted;
    assert !Before(Wanted(s, j), wanted);
    assert Holds(s[j], wanted) && Holds(s[k], Wanted(s, j));
    OrderIsStrictAndTotal(wanted, Wanted(s, j));
  }

  ghost predicate Chain(s: State, path: seq<nat>) {
    |path| > 0 && forall i :: 0 <= i < |path| - 1 ==> WaitsFor(s, path[i], path[i + 1])
  }

  lemma {:induction false} ChainClimbs(s: State, path: seq<nat>, n: nat)
    requires Inv(s) && Chain(s, path) && 0 < n < |path| - 1
    ensures WantsBefore(s, path[0], path[n])
  {
    assert WaitsFor(s, path[n - 1], path[n - 1 + 1]) && WaitsFor(s, path[n], path[n + 1]);
    WaitingClimbs(s, path[n - 1], path[n]);
    if n > 1 {
      ChainClimbs(s, path, n - 1);
      WantingIsStrict(s, path[0], path[n - 1], path[n]);
    }
  }

  /** In every reachable state the waits-for graph has no cycle. */
  lemma NoWaitingCycle(s: State, path: seq<nat>)
    requires Reachable(s) && Chain(s, path) && |path| > 1
    ensures path[0] != path[|path| - 1]
  {
    ReachableKeepsInv(s);
    WantingIsStrict(s, path[0], path[0], path[0]);
    if path[0] == path[|path| - 1] {
      var around := path + [path[1]];
      assert WaitsFor(s, path[0], path[0 + 1]);
      forall i | 0 <= i < |around| - 1
        ensures WaitsFor(s, around[i], around[i + 1])
      {
        if i < |path| - 1 { assert WaitsFor(s, path[i], path[i + 1]); }
      }
      ChainClimbs(s, around, |path| - 1);
    }
  }

  /** Among the first `n` writers, a blocked one that wants an identity no other blocked one's is after. */
  lemma {:induction false} HighestBlocked(s: State, n: nat) returns (top: Option<nat>)
    requires n <= |s|
    ensures top.Some? ==> top.value < n && Blocked(s, top.value)
    ensures top.Some? ==> forall i: nat :: i < n && Blocked(s, i) ==> !WantsBefore(s, top.value, i)
    ensures top.None? ==> forall i: nat :: i < n ==> !Blocked(s, i)
  {
    if n == 0 {
      top := None;
    } else {
      top := HighestBlocked(s, n - 1);
      if Blocked(s, n - 1) && (top.None? || WantsBefore(s, top.value, n - 1)) {
        forall i: nat | i < n && Blocked(s, i)
          ensures !WantsBefore(s, n - 1, i)
        {
          WantingIsStrict(s, n - 1, i, i);
          if top.Some? { WantingIsStrict(s, top.value, n - 1, i); }
        }
        top := Some(n - 1);
      } else if Blocked(s, n - 1) {
        WantingIsStrict(s, n - 1, n - 1, n - 1);
      }
    }
  }

  /** While a writer is running, some running writer can take its next lock or holds them all. */
  lemma SomeWriterCanStep(s: State, running: nat)
    requires Inv(s) && running < |s| && !s[running].ended
    ensures exists i: nat :: Ready(s, i)
  {
    if Blocked(s, running) {
      var top := HighestBlocked(s, |s|);
      var holder: nat :| WaitsFor(s, top.value, holder);
      if Blocked(s, holder) {
        WaitingClimbs(s, top.value, holder);
      }
      assert Ready(s, holder);
    } else {
      assert Ready(s, running);
    }
  }

  /** The writer can finish its batch or take its next lock. */
  ghost predicate Ready(s: State, i: nat) {
    i < |s| && !s[i].ended && (s[i].taken == |s[i].plan| || Enabled(s, Acquire(i)))
  }

  /** The locks and commits still to come. */
  function Work(s: State): nat {
    if s == [] then 0
    else
      var w := s[|s| - 1];
      Work(s[..|s| - 1]) + (if w.ended then 0 else 1 + if w.taken < |w.plan| then |w.plan| - w.taken else 0)
  }

  lemma {:induction false} WorkShrinks(s: State, m: Move)
    requires Inv(s) && Enabled(s, m) && !m.Begin?
    ensures Work(Take(s, m)) < Work(s)
  {
    WorkOfOne(s, m.i, Take(s, m)[m.i]);
  }

  lemma {:induction false} WorkOfOne(s: State, i: nat, w: Writer)
    requires i < |s|
    requires !s[i].ended && w.plan == s[i].plan
    requires w.ended || (w.taken == s[i].taken + 1 && s[i].taken < |s[i].plan|)
    ensures Work(s[i := w]) < Work(s)
  {
    var n := |s| - 1;
    if i < n {
      assert s[i := w][..n] == s[..n][i := w];
      WorkOfOne(s[..n], i, w);
    } else {
      assert s[i := w][..n] == s[..n];
    }
  }

  /** Each ready writer's next move: commit with every lock held, lock otherwise. No batch is rolled back. */
  ghost predicate Productive(s: State, moves: seq<Move>)
    decreases |moves|
  {
    moves != [] ==>
      && (match moves[0]
          case Begin(_) => false
          case Acquire(_) => true
          case End(i) => i < |s| && s[i].taken == |s[i].plan|)
      && Productive(Take(s, moves[0]), moves[1..])
  }

  /** From every reachable state all running batches can commit, none being rolled back, in at most `Work(s)` moves. */
  lemma {:induction false} EveryBatchCanCommit(s: State) returns (moves: seq<Move>)
    requires Inv(s)
    ensures Runs(s, moves) && Productive(s, moves) && |moves| <= Work(s)
    ensures |TakeAll(s, moves)| == |s| && forall i :: 0 <= i < |s| ==> TakeAll(s, moves)[i].ended
    decreases Work(s)
  {
    if running: nat :| running < |s| && !s[running].ended {
      SomeWriterCanStep(s, running);
      var i: nat :| Ready(s, i);
      var m := if s[i].taken == |s[i].plan| then End(i) else Acquire(i);
      WorkShrinks(s, m);
      MoveKeepsInv(s, m);
      var rest := EveryBatchCanCommit(Take(s, m));
      moves := [m] + rest;
      assert moves[1..] == rest;
    } else {
      moves := [];
    }
  }

  /** However the running batches are scheduled, they stop after at most `Work(s)` moves. */
  lemma {:induction false} SchedulesAreBounded(s: State, moves: seq<Move>)
    requires Inv(s) && Runs(s, moves) && forall m :: m in moves ==> !m.Begin?
    ensures |moves| <= Work(s)
    decreases |moves|
  {
    if moves != [] {
      assert moves[0] in moves;
      WorkShrinks(s, moves[0]);
      MoveKeepsInv(s, moves[0]);
      SchedulesAreBounded(Take(s, moves[0]), moves[1..]);
    }
  }

  /** The order is what prevents deadlock: two batches that lock two identities in opposite orders can stop each other. */
  lemma OppositeOrdersDeadlock(a: SortKey, b: SortKey)
    requires a != b
    ensures var s := [Writer([a, b], 1, false), Writer([b, a], 1, false)];
            && WaitsFor(s, 0, 1) && WaitsFor(s, 1, 0)
            && TakeAll([Writer([a, b], 0, false), Writer([b, a], 0, false)], [Acquire(0), Acquire(1)]) == s
            && Runs([Writer([a, b], 0, false), Writer([b, a], 0, false)], [Acquire(0), Acquire(1)])
  {
    var start := [Writer([a, b], 0, false), Writer([b, a], 0, false)];
    var middle := Take(start, Acquire(0));
    var end := Take(middle, Acquire(1));
    assert end == [Writer([a, b], 1, false), Writer([b, a], 1, false)];
    assert [a, b][..1] == [a] && [b, a][..1] == [b];
    assert Holds(end[1], b) && Holds(end[0], a);
    assert TakeAll(middle, [Acquire(1)]) == end by {
      assert [Acquire(1)][1..] == [] && TakeAll(end, []) == end;
    }
    assert [Acquire(0), Acquire(1)][1..] == [Acquire(1)];
    assert Runs(middle, [Acquire(1)]) by {
      assert [Acquire(1)][1..] == [];
      assert Enabled(middle, Acquire(1));
    }
  }
}
