/**
 * The order in which reviewed changes reach the canonical tables
 * (packages/server/src/draft-publication.ts, `orderReviewedChangeSteps`). Foreign keys are
 * checked immediately, so every prefix of the order must satisfy them.
 */
module PublishOrder {
  import opened Common
  import opened DraftOverlay
  import opened StepGraph

  datatype Target = Target(table: string, key: Key)

  /** Whole rows, primary key included, by target. */
  type Database = map<Target, Row>

  datatype ForeignKey = ForeignKey(child: string, columns: seq<Column>, parent: string, parentColumns: seq<Column>)

  datatype Resolved = Resolved(
    target: Target,
    operation: Operation,
    baseExists: bool,
    original: Option<Row>,
    final: Option<Row>)

  datatype StepKind = Remove | Write

  datatype Step = Step(change: nat, kind: StepKind)

  /** A delete, or an insert over a canonical row, removes first; anything but a delete writes. */
  predicate StepNeeded(operation: Operation, baseExists: bool, kind: StepKind) {
    match kind
    case Remove => operation == Delete || (operation == Insert && baseExists)
    case Write => operation != Delete
  }

  predicate HasStep(c: Resolved, kind: StepKind) {
    StepNeeded(c.operation, c.baseExists, kind)
  }

  function StepsOf(changes: seq<Resolved>): seq<Step> {
    if changes == [] then []
    else
      var i := |changes| - 1;
      StepsOf(changes[..i])
      + (if HasStep(changes[i], Remove) then [Step(i, Remove)] else [])
      + (if HasStep(changes[i], Write) then [Step(i, Write)] else [])
  }

  predicate IsStep(changes: seq<Resolved>, s: Step) {
    s.change < |changes| && HasStep(changes[s.change], s.kind)
  }

  lemma {:induction false} StepsAreTheSteps(changes: seq<Resolved>)
    ensures forall s :: s in StepsOf(changes) <==> IsStep(changes, s)
    ensures forall i, j :: 0 <= i < j < |StepsOf(changes)| ==> StepsOf(changes)[i] != StepsOf(changes)[j]
  {
    if changes != [] {
      var init := changes[..|changes| - 1];
      StepsAreTheSteps(init);
      var before, all := StepsOf(init), StepsOf(changes);
      assert forall s :: s in before ==> s.change < |init|;
      forall i, j | 0 <= i < j < |all|
        ensures all[i] != all[j]
      {
        if i < |before| { assert all[i] in before; }
      }
      forall s
        ensures s in all <==> IsStep(changes, s)
      {
        if s.change < |init| { assert s in all ==> s in before; assert IsStep(changes, s) <==> IsStep(init, s); }
      }
    }
  }

  /** A foreign-key tuple; `None` when the row is missing or any part is NULL. */
  function Tuple(row: Option<Row>, columns: seq<Column>): Option<seq<Value>> {
    if row.None? then None
    else if columns == [] then Some([])
    else
      var rest := Tuple(row, columns[..|columns| - 1]);
      var c := columns[|columns| - 1];
      if rest.None? || c !in row.value || row.value[c] == Null then None
      else Some(rest.value + [row.value[c]])
  }

  // ---------------------------------------------------------------------------------------
  // The edges
  // ---------------------------------------------------------------------------------------

  /** The step after which change `i` no longer holds its original tuple. */
  function LosingStep(c: Resolved, i: nat, columns: seq<Column>): Option<Step> {
    if HasStep(c, Remove) then Some(Step(i, Remove))
    else if Tuple(c.original, columns) != Tuple(c.final, columns) && HasStep(c, Write) then Some(Step(i, Write))
    else None
  }

  /** The step after which change `i` newly holds its final tuple. */
  function GainingStep(c: Resolved, i: nat, columns: seq<Column>): Option<Step> {
    if (c.operation == Insert || Tuple(c.original, columns) != Tuple(c.final, columns)) && HasStep(c, Write)
    then Some(Step(i, Write)) else None
  }

  function OneEdge(before: Option<Step>, after: Option<Step>): set<(Step, Step)> {
    if before.Some? && after.Some? && before != after then {(before.value, after.value)} else {}
  }

  /** A child lets go before its parent goes; a parent arrives before its child takes hold. */
  function PairEdges(changes: seq<Resolved>, fk: ForeignKey, child: nat, parent: nat): set<(Step, Step)>
    requires child < |changes| && parent < |changes|
  {
    var c, p := changes[child], changes[parent];
    if c.target.table != fk.child || p.target.table != fk.parent then {}
    else
      var childOriginal, childFinal := Tuple(c.original, fk.columns), Tuple(c.final, fk.columns);
      var parentOriginal, parentFinal := Tuple(p.original, fk.parentColumns), Tuple(p.final, fk.parentColumns);
      (if childOriginal.Some? && childOriginal == parentOriginal
       then OneEdge(LosingStep(c, child, fk.columns), LosingStep(p, parent, fk.parentColumns)) else {})
      + (if childFinal.Some? && childFinal == parentFinal
         then OneEdge(GainingStep(p, parent, fk.parentColumns), GainingStep(c, child, fk.columns)) else {})
  }

  /** A replaced row is removed before it is written. */
  function ReplaceEdge(changes: seq<Resolved>, i: nat): set<(Step, Step)>
    requires i < |changes|
  {
    if HasStep(changes[i], Remove) && HasStep(changes[i], Write) then {(Step(i, Remove), Step(i, Write))} else {}
  }

  ghost predicate MustPrecede(changes: seq<Resolved>, fks: seq<ForeignKey>, a: Step, b: Step) {
    || (exists i :: 0 <= i < |changes| && (a, b) in ReplaceEdge(changes, i))
    || (exists child, f, parent :: 0 <= child < |changes| && 0 <= f < |fks| && 0 <= parent < |changes|
          && (a, b) in PairEdges(changes, fks[f], child, parent))
  }

  // Partial unions, in the order the three loops add edges.

  function ReplaceEdges(changes: seq<Resolved>, n: nat): set<(Step, Step)>
    requires n <= |changes|
  {
    if n == 0 then {} else ReplaceEdges(changes, n - 1) + ReplaceEdge(changes, n - 1)
  }

  function ParentEdges(changes: seq<Resolved>, fk: ForeignKey, child: nat, n: nat): set<(Step, Step)>
    requires child < |changes| && n <= |changes|
  {
    if n == 0 then {} else ParentEdges(changes, fk, child, n - 1) + PairEdges(changes, fk, child, n - 1)
  }

  function KeyEdges(changes: seq<Resolved>, fks: seq<ForeignKey>, child: nat, n: nat): set<(Step, Step)>
    requires child < |changes| && n <= |fks|
  {
    if n == 0 then {} else KeyEdges(changes, fks, child, n - 1) + ParentEdges(changes, fks[n - 1], child, |changes|)
  }

  function ChildEdges(changes: seq<Resolved>, fks: seq<ForeignKey>, n: nat): set<(Step, Step)>
    requires n <= |changes|
  {
    if n == 0 then {} else ChildEdges(changes, fks, n - 1) + KeyEdges(changes, fks, n - 1, |fks|)
  }

  lemma {:induction false} InReplaceEdges(changes: seq<Resolved>, n: nat, e: (Step, Step))
    requires n <= |changes|
    ensures e in ReplaceEdges(changes, n) <==> exists i :: 0 <= i < n && e in ReplaceEdge(changes, i)
  {
    if n > 0 { InReplaceEdges(changes, n - 1, e); }
  }

  lemma {:induction false} InParentEdges(changes: seq<Resolved>, fk: ForeignKey, child: nat, n: nat, e: (Step, Step))
    requires child < |changes| && n <= |changes|
    ensures e in ParentEdges(changes, fk, child, n) <==> exists parent :: 0 <= parent < n && e in PairEdges(changes, fk, child, parent)
  {
    hide PairEdges;
    if n > 0 { InParentEdges(changes, fk, child, n - 1, e); }
  }

  lemma {:induction false} InKeyEdges(changes: seq<Resolved>, fks: seq<ForeignKey>, child: nat, n: nat, e: (Step, Step))
    requires child < |changes| && n <= |fks|
    ensures e in KeyEdges(changes, fks, child, n)
       <==> exists f, parent :: 0 <= f < n && 0 <= parent < |changes| && e in PairEdges(changes, fks[f], child, parent)
  {
    hide PairEdges, ParentEdges;
    if n > 0 {
      InKeyEdges(changes, fks, child, n - 1, e);
      InParentEdges(changes, fks[n - 1], child, |changes|, e);
    }
  }

  lemma {:induction false} InChildEdges(changes: seq<Resolved>, fks: seq<ForeignKey>, n: nat, e: (Step, Step))
    requires n <= |changes|
    ensures e in ChildEdges(changes, fks, n)
       <==> exists child, f, parent :: 0 <= child < n && 0 <= f < |fks| && 0 <= parent < |changes|
              && e in PairEdges(changes, fks[f], child, parent)
  {
    hide PairEdges, KeyEdges;
    if n > 0 {
      InChildEdges(changes, fks, n - 1, e);
      InKeyEdges(changes, fks, n - 1, |fks|, e);
    }
  }

  /** The loops add exactly the required precedences. */
  lemma AllEdgesAreRequired(changes: seq<Resolved>, fks: seq<ForeignKey>, a: Step, b: Step)
    ensures (a, b) in ReplaceEdges(changes, |changes|) + ChildEdges(changes, fks, |changes|) <==> MustPrecede(changes, fks, a, b)
  {
    InReplaceEdges(changes, |changes|, (a, b));
    InChildEdges(changes, fks, |changes|, (a, b));
  }

  /** Edges between steps as edges between positions in the step list. */
  ghost function Indexed(steps: seq<Step>, edges: set<(Step, Step)>): Edges {
    set i, j | 0 <= i < |steps| && 0 <= j < |steps| && (steps[i], steps[j]) in edges && i != j :: (i, j)
  }

  ghost function DependencyEdges(changes: seq<Resolved>, fks: seq<ForeignKey>): Edges {
    Indexed(StepsOf(changes), ReplaceEdges(changes, |changes|) + ChildEdges(changes, fks, |changes|))
  }

  lemma IndexedUnion(steps: seq<Step>, edges: set<(Step, Step)>, before: nat, after: nat)
    requires before < |steps| && after < |steps|
    requires forall i, j :: 0 <= i < j < |steps| ==> steps[i] != steps[j]
    ensures Indexed(steps, edges + {(steps[before], steps[after])})
         == if before == after then Indexed(steps, edges) else Indexed(steps, edges) + {(before, after)}
  {}

  // ---------------------------------------------------------------------------------------
  // Building the steps and the graph
  // ---------------------------------------------------------------------------------------

  /** `positions` says where the steps of one kind of the first `n` changes stand in the list. */
  ghost predicate LocatesKind(changes: seq<Resolved>, n: nat, steps: seq<Step>, positions: map<nat, nat>, kind: StepKind)
    requires n <= |changes|
  {
    && (forall i: nat :: i in positions <==> i < n && HasStep(changes[i], kind))
    && (forall i :: i in positions ==> positions[i] < |steps| && steps[positions[i]] == Step(i, kind))
  }

  ghost predicate Locates(changes: seq<Resolved>, steps: seq<Step>, removes: map<nat, nat>, writes: map<nat, nat>) {
    LocatesKind(changes, |changes|, steps, removes, Remove) && LocatesKind(changes, |changes|, steps, writes, Write)
  }

  /** Move on to the next change: append its step of this kind, if it has one. */
  method Append(changes: seq<Resolved>, i: nat, steps: seq<Step>, positions: map<nat, nat>, kind: StepKind)
    returns (steps': seq<Step>, positions': map<nat, nat>)
    requires i < |changes| && LocatesKind(changes, i, steps, positions, kind)
    ensures steps' == steps + if HasStep(changes[i], kind) then [Step(i, kind)] else []
    ensures LocatesKind(changes, i + 1, steps', positions', kind)
  {
    steps', positions' := steps, positions;
    if HasStep(changes[i], kind) {
      positions' := positions[i := |steps|];
      steps' := steps + [Step(i, kind)];
    }
  }

  lemma StillLocates(changes: seq<Resolved>, n: nat, steps: seq<Step>, more: seq<Step>, positions: map<nat, nat>, kind: StepKind)
    requires n <= |changes| && LocatesKind(changes, n, steps, positions, kind)
    ensures LocatesKind(changes, n, steps + more, positions, kind)
  {}

  method BuildSteps(changes: seq<Resolved>) returns (steps: seq<Step>, removes: map<nat, nat>, writes: map<nat, nat>)
    ensures steps == StepsOf(changes)
    ensures Locates(changes, steps, removes, writes)
  {
    hide LocatesKind, HasStep;
    steps, removes, writes := [], map[], map[];
    NothingLocated(changes);
    for i := 0 to |changes|
      invariant steps == StepsOf(changes[..i])
      invariant LocatesKind(changes, i, steps, removes, Remove) && LocatesKind(changes, i, steps, writes, Write)
    {
      assert changes[..i + 1][..i] == changes[..i];
      ghost var before := steps;
      steps, removes := Append(changes, i, steps, removes, Remove);
      StillLocates(changes, i, before, if HasStep(changes[i], Remove) then [Step(i, Remove)] else [], writes, Write);
      ghost var between := steps;
      steps, writes := Append(changes, i, steps, writes, Write);
      StillLocates(changes, i + 1, between, if HasStep(changes[i], Write) then [Step(i, Write)] else [], removes, Remove);
    }
    assert changes[..|changes|] == changes;
  }

  lemma NothingLocated(changes: seq<Resolved>)
    ensures LocatesKind(changes, 0, [], map[], Remove) && LocatesKind(changes, 0, [], map[], Write)
  {}

  /** The position of an optional step. */
  ghost predicate At(steps: seq<Step>, position: Option<nat>, step: Option<Step>) {
    && (position.Some? <==> step.Some?)
    && (position.Some? ==> position.value < |steps| && steps[position.value] == step.value)
  }

  /** Add the edge between two optional steps, when both exist. */
  method AddStepEdge(graph: Graph, ghost steps: seq<Step>, ghost edges: set<(Step, Step)>,
                     before: Option<nat>, ghost beforeStep: Option<Step>, after: Option<nat>, ghost afterStep: Option<Step>)
    requires graph.Valid() && graph.size == |steps| && Distinct(steps)
    requires graph.AllEdges() == Indexed(steps, edges)
    requires At(steps, before, beforeStep) && At(steps, after, afterStep)
    modifies graph
    ensures graph.Valid()
    ensures graph.AllEdges() == Indexed(steps, edges + OneEdge(beforeStep, afterStep))
  {
    assert edges + {} == edges;
    if before.Some? && after.Some? {
      IndexedUnion(steps, edges, before.value, after.value);
      graph.AddEdge(before.value, after.value);
    }
  }

  method AddPairEdges(graph: Graph, changes: seq<Resolved>, fk: ForeignKey, child: nat, parent: nat,
                      ghost steps: seq<Step>, removes: map<nat, nat>, writes: map<nat, nat>, ghost edges: set<(Step, Step)>)
    requires child < |changes| && parent < |changes|
    requires graph.Valid() && graph.size == |steps| && Distinct(steps) && Locates(changes, steps, removes, writes)
    requires graph.AllEdges() == Indexed(steps, edges)
    modifies graph
    ensures graph.Valid()
    ensures graph.AllEdges() == Indexed(steps, edges + PairEdges(changes, fk, child, parent))
  {
    hide Indexed, Graph.Valid, Distinct;
    var c, p := changes[child], changes[parent];
    if c.target.table != fk.child || p.target.table != fk.parent {
      assert edges + {} == edges;
      return;
    }
    var childOriginal, childFinal := Tuple(c.original, fk.columns), Tuple(c.final, fk.columns);
    var parentOriginal, parentFinal := Tuple(p.original, fk.parentColumns), Tuple(p.final, fk.parentColumns);
    var childRelease := if child in removes then Some(removes[child])
                        else if childOriginal != childFinal then Lookup(writes, child) else None;
    var childAcquire := if c.operation == Insert || childOriginal != childFinal then Lookup(writes, child) else None;
    var parentLose := if parent in removes then Some(removes[parent])
                      else if parentOriginal != parentFinal then Lookup(writes, parent) else None;
    var parentProvide := if p.operation == Insert || parentOriginal != parentFinal then Lookup(writes, parent) else None;
    ghost var released := if childOriginal.Some? && childOriginal == parentOriginal
                          then OneEdge(LosingStep(c, child, fk.columns), LosingStep(p, parent, fk.parentColumns)) else {};
    assert edges + {} == edges;
    if childOriginal.Some? && childOriginal == parentOriginal {
      AddStepEdge(graph, steps, edges, childRelease, LosingStep(c, child, fk.columns),
                  parentLose, LosingStep(p, parent, fk.parentColumns));
    }
    assert graph.AllEdges() == Indexed(steps, edges + released);
    assert edges + released + {} == edges + released;
    if childFinal.Some? && childFinal == parentFinal {
      AddStepEdge(graph, steps, edges + released, parentProvide, GainingStep(p, parent, fk.parentColumns),
                  childAcquire, GainingStep(c, child, fk.columns));
      assert edges + PairEdges(changes, fk, child, parent)
          == edges + released + OneEdge(GainingStep(p, parent, fk.parentColumns), GainingStep(c, child, fk.columns));
    } else {
      assert edges + PairEdges(changes, fk, child, parent) == edges + released;
    }
  }

  lemma UnionIsAssociative<T>(a: set<T>, b: set<T>, c: set<T>)
    ensures a + (b + c) == a + b + c
  {}

  method BuildGraph(changes: seq<Resolved>, fks: seq<ForeignKey>, steps: seq<Step>, removes: map<nat, nat>, writes: map<nat, nat>)
    returns (graph: Graph)
    requires Distinct(steps) && Locates(changes, steps, removes, writes)
    ensures fresh(graph) && graph.Valid() && graph.size == |steps|
    ensures graph.AllEdges() == Indexed(steps, ReplaceEdges(changes, |changes|) + ChildEdges(changes, fks, |changes|))
  {
    hide Indexed, Graph.Valid, Distinct, KeyEdges;
    graph := new Graph(|steps|);
    NothingIndexed(steps);
    for i := 0 to |changes|
      invariant graph.Valid() && graph.size == |steps| && fresh(graph)
      invariant graph.AllEdges() == Indexed(steps, ReplaceEdges(changes, i))
    {
      AddStepEdge(graph, steps, ReplaceEdges(changes, i),
                  Lookup(removes, i), if i in removes then Some(Step(i, Remove)) else None,
                  Lookup(writes, i), if i in writes then Some(Step(i, Write)) else None);
    }
    ghost var replaced := ReplaceEdges(changes, |changes|);
    assert replaced + {} == replaced;
    for child := 0 to |changes|
      invariant graph.Valid() && graph.size == |steps| && fresh(graph)
      invariant graph.AllEdges() == Indexed(steps, replaced + ChildEdges(changes, fks, child))
    {
      AddChildEdges(graph, changes, fks, child, steps, removes, writes, replaced + ChildEdges(changes, fks, child));
      UnionIsAssociative(replaced, ChildEdges(changes, fks, child), KeyEdges(changes, fks, child, |fks|));
    }
  }

  method AddChildEdges(graph: Graph, changes: seq<Resolved>, fks: seq<ForeignKey>, child: nat,
                       ghost steps: seq<Step>, removes: map<nat, nat>, writes: map<nat, nat>, ghost edges: set<(Step, Step)>)
    requires child < |changes|
    requires graph.Valid() && graph.size == |steps| && Distinct(steps) && Locates(changes, steps, removes, writes)
    requires graph.AllEdges() == Indexed(steps, edges)
    modifies graph
    ensures graph.Valid()
    ensures graph.AllEdges() == Indexed(steps, edges + KeyEdges(changes, fks, child, |fks|))
  {
    hide Indexed, Graph.Valid, Distinct, PairEdges, LocatesKind;
    assert edges + {} == edges;
    for f := 0 to |fks|
      invariant graph.Valid()
      invariant graph.AllEdges() == Indexed(steps, edges + KeyEdges(changes, fks, child, f))
    {
      ghost var byKeys := edges + KeyEdges(changes, fks, child, f);
      assert byKeys + {} == byKeys;
      for parent := 0 to |changes|
        invariant graph.Valid()
        invariant graph.AllEdges() == Indexed(steps, byKeys + ParentEdges(changes, fks[f], child, parent))
      {
        AddPairEdges(graph, changes, fks[f], child, parent, steps, removes, writes,
                     byKeys + ParentEdges(changes, fks[f], child, parent));
        UnionIsAssociative(byKeys, ParentEdges(changes, fks[f], child, parent), PairEdges(changes, fks[f], child, parent));
      }
      UnionIsAssociative(edges, KeyEdges(changes, fks, child, f), ParentEdges(changes, fks[f], child, |changes|));
    }
  }

  lemma NothingIndexed(steps: seq<Step>)
    ensures Indexed(steps, {}) == {}
  {}

  // ---------------------------------------------------------------------------------------
  // The order
  // ---------------------------------------------------------------------------------------

  ghost function Arranged(steps: seq<Step>, order: seq<nat>): seq<Step>
    requires forall i :: 0 <= i < |order| ==> order[i] < |steps|
  {
    seq(|order|, i requires 0 <= i < |order| => steps[order[i]])
  }

  /** Every step once, never before a step it must follow, ties broken towards the earlier step. */
  ghost predicate Schedule(changes: seq<Resolved>, fks: seq<ForeignKey>, schedule: seq<Step>) {
    && Distinct(schedule)
    && (forall s :: s in schedule <==> IsStep(changes, s))
    && (forall i, j ::
          0 <= i < |schedule| && 0 <= j < |schedule| && schedule[i] != schedule[j] && MustPrecede(changes, fks, schedule[i], schedule[j]) ==>
          i < j)
  }

  /** `None` is the thrown cycle error. */
  method OrderReviewedChangeSteps(changes: seq<Resolved>, fks: seq<ForeignKey>) returns (schedule: Option<seq<Step>>)
    ensures schedule.None? <==> Cyclic(DependencyEdges(changes, fks))
    ensures schedule.Some? ==> Schedule(changes, fks, schedule.value)
    ensures schedule.Some? ==>
              exists order :: OrdersAll(|StepsOf(changes)|, order) && Greedy(DependencyEdges(changes, fks), |order|, order)
                && schedule.value == Arranged(StepsOf(changes), order)
  {
    hide Cyclic, Greedy, Schedule;
    var steps, removes, writes := BuildSteps(changes);
    StepsAreTheSteps(changes);
    var graph := BuildGraph(changes, fks, steps, removes, writes);
    var order := graph.Order();
    if order.None? {
      return None;
    }
    var ordered := seq(|order.value|, i requires 0 <= i < |order.value| => steps[order.value[i]]);
    assert ordered == Arranged(steps, order.value);
    OrderIsSchedule(changes, fks, order.value);
    schedule := Some(ordered);
  }

  lemma OrderIsSchedule(changes: seq<Resolved>, fks: seq<ForeignKey>, order: seq<nat>)
    requires OrdersAll(|StepsOf(changes)|, order) && Respects(DependencyEdges(changes, fks), order)
    ensures Schedule(changes, fks, Arranged(StepsOf(changes), order))
  {
    var steps, schedule := StepsOf(changes), Arranged(StepsOf(changes), order);
    StepsAreTheSteps(changes);
    forall s
      ensures s in schedule <==> IsStep(changes, s)
    {
      if s in steps {
        var i: nat :| i < |steps| && steps[i] == s;
        assert i in order;
        var k :| 0 <= k < |order| && order[k] == i;
        assert schedule[k] == s;
      }
    }
    forall i, j | 0 <= i < |schedule| && 0 <= j < |schedule| && schedule[i] != schedule[j]
                  && MustPrecede(changes, fks, schedule[i], schedule[j])
      ensures i < j
    {
      AllEdgesAreRequired(changes, fks, schedule[i], schedule[j]);
      assert (order[i], order[j]) in DependencyEdges(changes, fks);
    }
  }
}
