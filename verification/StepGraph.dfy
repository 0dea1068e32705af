/**
 * The dependency graph behind publication order, and its ordering loop
 * (packages/server/src/draft-publication.ts, `orderReviewedChangeSteps`): repeatedly take the
 * smallest step whose predecessors are all done; whatever cannot be reached this way is cyclic.
 */
module StepGraph {
  import opened Common

  type Edges = set<(nat, nat)>

  ghost predicate EdgesBelow(edges: Edges, n: nat) {
    forall e :: e in edges ==> e.0 < n && e.1 < n && e.0 != e.1
  }

  function Waiting(edges: Edges, done: set<nat>, i: nat): set<nat> {
    set e | e in edges && e.1 == i && e.0 !in done :: e.0
  }

  /** Step `i` is not done and everything before it is. */
  ghost predicate Available(edges: Edges, n: nat, done: set<nat>, i: nat) {
    i < n && i !in done && Waiting(edges, done, i) == {}
  }

  ghost function DoneBy(order: seq<nat>): set<nat> {
    set i | i in order
  }

  /** Every step of `order` was the smallest one available when it was taken. */
  ghost predicate Greedy(edges: Edges, n: nat, order: seq<nat>) {
    forall k :: 0 <= k < |order| ==>
      && Available(edges, n, DoneBy(order[..k]), order[k])
      && forall j: nat :: Available(edges, n, DoneBy(order[..k]), j) ==> order[k] <= j
  }

  /** A closed walk along edges. */
  ghost predicate IsCycle(edges: Edges, walk: seq<nat>) {
    && |walk| >= 2
    && walk[0] == walk[|walk| - 1]
    && forall i :: 0 <= i < |walk| - 1 ==> (walk[i], walk[i + 1]) in edges
  }

  ghost predicate Cyclic(edges: Edges) {
    exists walk :: IsCycle(edges, walk)
  }

  ghost predicate Respects(edges: Edges, order: seq<nat>) {
    forall i, j :: 0 <= i < |order| && 0 <= j < |order| && (order[i], order[j]) in edges ==> i < j
  }

  ghost predicate OrdersAll(n: nat, order: seq<nat>) {
    && |order| == n
    && (forall i :: 0 <= i < n ==> order[i] < n)
    && (forall i, j :: 0 <= i < j < n ==> order[i] != order[j])
    && (forall i: nat :: i < n ==> i in order)
  }

  // ---------------------------------------------------------------------------------------
  // Greedy orders
  // ---------------------------------------------------------------------------------------

  lemma GreedyIsDistinct(edges: Edges, n: nat, order: seq<nat>)
    requires Greedy(edges, n, order)
    ensures forall i, j :: 0 <= i < j < |order| ==> order[i] != order[j]
    ensures forall i :: 0 <= i < |order| ==> order[i] < n
  {
    forall i, j | 0 <= i < j < |order|
      ensures order[i] != order[j]
    {
      assert order[..j][i] == order[i];
      assert order[j] !in DoneBy(order[..j]);
    }
  }

  ghost function Below(n: nat): (s: set<nat>)
    ensures forall i: nat :: i in s <==> i < n
    ensures |s| == n
  {
    if n == 0 then {} else Below(n - 1) + {n - 1}
  }

  lemma {:induction false} DistinctSize(s: seq<nat>)
    requires forall i, j :: 0 <= i < j < |s| ==> s[i] != s[j]
    ensures |DoneBy(s)| == |s|
  {
    if s == [] {
      assert DoneBy(s) == {};
    } else {
      var init, last := s[..|s| - 1], s[|s| - 1];
      DistinctSize(init);
      assert DoneBy(s) == DoneBy(init) + {last};
      assert last !in DoneBy(init);
    }
  }

  /** As many greedy steps as there are steps is a permutation that respects every edge. */
  lemma FullGreedyOrder(edges: Edges, n: nat, order: seq<nat>)
    requires Greedy(edges, n, order) && |order| == n && EdgesBelow(edges, n)
    ensures OrdersAll(n, order) && Respects(edges, order)
  {
    GreedyIsDistinct(edges, n, order);
    DistinctSize(order);
    SubsetSize(DoneBy(order), Below(n));
    forall i: nat | i < n
      ensures i in order
    {
      assert i in DoneBy(order);
    }
    forall i, j | 0 <= i < |order| && 0 <= j < |order| && (order[i], order[j]) in edges
      ensures i < j
    {
      var done := DoneBy(order[..j]);
      assert Waiting(edges, done, order[j]) == {};
      assert order[i] !in Waiting(edges, done, order[j]);
      var k :| 0 <= k < j && order[..j][k] == order[i];
    }
  }

  lemma {:induction false} RespectedWalkClimbs(edges: Edges, n: nat, order: seq<nat>, walk: seq<nat>, position: seq<nat>, k: nat)
    requires OrdersAll(n, order) && Respects(edges, order)
    requires |position| == |walk| && k < |walk|
    requires forall i :: 0 <= i < |walk| ==> position[i] < n && order[position[i]] == walk[i]
    requires forall i :: 0 <= i < |walk| - 1 ==> (walk[i], walk[i + 1]) in edges
    ensures position[0] + k <= position[k]
  {
    if k > 0 {
      RespectedWalkClimbs(edges, n, order, walk, position, k - 1);
      assert (order[position[k - 1]], order[position[k]]) in edges;
    }
  }

  /** A cyclic graph has no order that respects it. */
  lemma CyclicHasNoOrder(edges: Edges, n: nat, order: seq<nat>)
    requires EdgesBelow(edges, n) && OrdersAll(n, order) && Respects(edges, order)
    ensures !Cyclic(edges)
  {
    if walk :| IsCycle(edges, walk) {
      var position := Positions(edges, n, order, walk);
      RespectedWalkClimbs(edges, n, order, walk, position, |walk| - 1);
      assert false;
    }
  }

  lemma Positions(edges: Edges, n: nat, order: seq<nat>, walk: seq<nat>) returns (position: seq<nat>)
    requires EdgesBelow(edges, n) && OrdersAll(n, order) && IsCycle(edges, walk)
    ensures |position| == |walk| && forall i :: 0 <= i < |walk| ==> position[i] < n && order[position[i]] == walk[i]
  {
    position := [];
    for k := 0 to |walk|
      invariant |position| == k && forall i :: 0 <= i < k ==> position[i] < n && order[position[i]] == walk[i]
    {
      assert walk[k] < n by {
        if k < |walk| - 1 {
          assert (walk[k], walk[k + 1]) in edges;
        } else {
          assert (walk[k - 1], walk[k]) in edges;
        }
      }
      assert walk[k] in order;
      var p :| 0 <= p < |order| && order[p] == walk[k];
      position := position + [p];
    }
  }

  // ---------------------------------------------------------------------------------------
  // Stuck means cyclic
  // ---------------------------------------------------------------------------------------

  /** A walk that ends anywhere, stepping backwards along `previous`. */
  lemma {:induction false} BackwardWalk(edges: Edges, left: set<nat>, previous: map<nat, nat>, length: nat) returns (walk: seq<nat>)
    requires left != {} && left <= previous.Keys
    requires forall i {:trigger previous[i]} :: i in left ==> previous[i] in left && (previous[i], i) in edges
    ensures |walk| == length + 1
    ensures forall i :: 0 <= i < |walk| ==> walk[i] in left
    ensures forall i :: 0 <= i < |walk| - 1 ==> (walk[i], walk[i + 1]) in edges
  {
    if length == 0 {
      var i :| i in left;
      walk := [i];
    } else {
      var rest := BackwardWalk(edges, left, previous, length - 1);
      var p := previous[rest[0]];
      walk := [p] + rest;
      forall i | 0 <= i < |walk| - 1
        ensures (walk[i], walk[i + 1]) in edges
      {
        if i > 0 {
          assert walk[i] == rest[i - 1] && walk[i + 1] == rest[i];
        }
      }
    }
  }

  lemma LongWalkRepeats(walk: seq<nat>, within: set<nat>)
    requires forall i :: 0 <= i < |walk| ==> walk[i] in within
    requires |walk| > |within|
    ensures exists i, j :: 0 <= i < j < |walk| && walk[i] == walk[j]
  {
    if forall i, j :: 0 <= i < j < |walk| ==> walk[i] != walk[j] {
      DistinctSize(walk);
      SubsetSize(DoneBy(walk), within);
    }
  }

  ghost function SomeWaiting(edges: Edges, done: set<nat>, i: nat): (p: nat)
    requires Waiting(edges, done, i) != {}
    ensures (p, i) in edges && p !in done
  {
    var p :| p in Waiting(edges, done, i);
    p
  }

  lemma StuckIsCyclic(edges: Edges, n: nat, done: set<nat>)
    requires EdgesBelow(edges, n)
    requires exists i: nat :: i < n && i !in done
    requires forall i: nat :: !Available(edges, n, done, i)
    ensures Cyclic(edges)
  {
    var left := set i: nat | i < n && i !in done;
    forall i | i in left
      ensures Waiting(edges, done, i) != {}
    {
      assert !Available(edges, n, done, i);
    }
    var previous: map<nat, nat> := map i | i in left :: SomeWaiting(edges, done, i);
    var first: nat :| first < n && first !in done;
    assert first in left;
    var walk := BackwardWalk(edges, left, previous, |left|);
    RepeatedWalkCloses(edges, left, walk);
  }

  lemma RepeatedWalkCloses(edges: Edges, within: set<nat>, walk: seq<nat>)
    requires forall i :: 0 <= i < |walk| ==> walk[i] in within
    requires forall i :: 0 <= i < |walk| - 1 ==> (walk[i], walk[i + 1]) in edges
    requires |walk| > |within|
    ensures Cyclic(edges)
  {
    LongWalkRepeats(walk, within);
    var i, j :| 0 <= i < j < |walk| && walk[i] == walk[j];
    var cycle := walk[i..j + 1];
    forall k | 0 <= k < |cycle| - 1
      ensures (cycle[k], cycle[k + 1]) in edges
    {
      assert cycle[k] == walk[i + k] && cycle[k + 1] == walk[i + k + 1];
    }
    assert IsCycle(edges, cycle);
  }

  // ---------------------------------------------------------------------------------------
  // The loop
  // ---------------------------------------------------------------------------------------

  class Graph {
    const size: nat
    var outgoing: seq<set<nat>>
    var incoming: seq<nat>

    ghost predicate Valid()
      reads this
    {
      && |outgoing| == size == |incoming|
      && EdgesBelow(AllEdges(), size)
      && forall i :: 0 <= i < size ==> incoming[i] == |Waiting(AllEdges(), {}, i)|
    }

    ghost function AllEdges(): Edges
      reads this`outgoing
    {
      set a, b | 0 <= a < |outgoing| && b in outgoing[a] :: (a, b)
    }

    constructor (size: nat)
      ensures Valid() && this.size == size && AllEdges() == {}
    {
      this.size := size;
      outgoing := seq(size, _ => {});
      incoming := seq(size, _ => 0);
      new;
      assert AllEdges() == {};
      assert forall i :: Waiting({}, {}, i) == {};
    }

    /** A self edge and a repeated edge are ignored. */
    method AddEdge(before: nat, after: nat)
      requires Valid() && before < size && after < size
      modifies this
      ensures Valid()
      ensures AllEdges() == if before == after then old(AllEdges()) else old(AllEdges()) + {(before, after)}
    {
      ghost var was := AllEdges();
      if before == after || after in outgoing[before] {
        assert before == after || (before, after) in was;
        assert before != after ==> was + {(before, after)} == was;
        return;
      }
      outgoing := outgoing[before := outgoing[before] + {after}];
      incoming := incoming[after := incoming[after] + 1];
      assert AllEdges() == was + {(before, after)};
      forall i | 0 <= i < size
        ensures incoming[i] == |Waiting(AllEdges(), {}, i)|
      {
        if i == after {
          assert before !in Waiting(was, {}, i);
          assert Waiting(AllEdges(), {}, i) == Waiting(was, {}, i) + {before};
        } else {
          assert Waiting(AllEdges(), {}, i) == Waiting(was, {}, i);
        }
      }
    }

    /** A finished step no longer holds its dependents back; those left waiting for nothing become ready. */
    method Release(index: nat, ghost before: set<nat>, waiting: set<nat>) returns (ready: set<nat>)
      requires |outgoing| == size == |incoming| && EdgesBelow(AllEdges(), size) && index < size && index !in before
      requires forall i: nat :: i < size ==> incoming[i] == |Waiting(AllEdges(), before, i)|
      requires forall i: nat :: i in waiting <==> Available(AllEdges(), size, before, i) && i != index
      requires forall i: nat :: i in before ==> Waiting(AllEdges(), before, i) == {}
      modifies this`incoming
      ensures |incoming| == size
      ensures forall i: nat :: i < size ==> incoming[i] == |Waiting(AllEdges(), before + {index}, i)|
      ensures forall i: nat :: i in ready <==> Available(AllEdges(), size, before + {index}, i)
    {
      hide Waiting;
      ghost var edges, done := AllEdges(), before + {index};
      WaitingAfter(edges, size, before, index);
      ready := waiting;
      var dependents := outgoing[index];
      assert forall b :: b in dependents <==> (index, b) in edges;
      while dependents != {}
        invariant |incoming| == size && AllEdges() == edges
        invariant dependents <= outgoing[index]
        invariant forall i: nat :: i < size ==>
                    incoming[i] == |Waiting(edges, done, i)| + (if i in dependents then 1 else 0)
        invariant forall i: nat :: i in ready <==> Available(edges, size, done, i) && i !in dependents
      {
        var dependent :| dependent in dependents;
        DependentWaits(edges, size, before, index, dependent);
        dependents := dependents - {dependent};
        incoming := incoming[dependent := incoming[dependent] - 1];
        if incoming[dependent] == 0 {
          ready := ready + {dependent};
        }
      }
    }

    method InitiallyReady() returns (ready: set<nat>)
      requires Valid()
      ensures forall i: nat :: i in ready <==> Available(AllEdges(), size, DoneBy([]), i)
    {
      ready := set i: nat | i < |incoming| && incoming[i] == 0;
      assert DoneBy([]) == {};
    }

    /** `None` when the remaining steps wait for each other. */
    method Order() returns (result: Option<seq<nat>>)
      requires Valid()
      modifies this`incoming
      ensures result.Some? ==> Greedy(AllEdges(), size, result.value) && OrdersAll(size, result.value) && Respects(AllEdges(), result.value)
      ensures result.None? <==> Cyclic(AllEdges())
    {
      hide AllEdges, Greedy, Available, Waiting, Cyclic, EdgesBelow, OrdersAll, Respects, DoneBy;
      ghost var edges := AllEdges();
      var ready := InitiallyReady();
      var ordered: seq<nat> := [];
      EmptyIsGreedy(edges, size);
      while ready != {}
        invariant |incoming| == size && AllEdges() == edges
        invariant Greedy(edges, size, ordered)
        invariant forall i: nat :: i < size ==> incoming[i] == |Waiting(edges, DoneBy(ordered), i)|
        invariant forall i: nat :: i in ready <==> Available(edges, size, DoneBy(ordered), i)
        decreases size - |ordered|
      {
        var index := Smallest(ready);
        ready := ready - {index};
        GreedyStep(edges, size, ordered, index);
        ready := Release(index, DoneBy(ordered), ready);
        ordered := ordered + [index];
      }
      Conclude(edges, size, ordered);
      result := if |ordered| == size then Some(ordered) else None;
    }
  }

  lemma Conclude(edges: Edges, n: nat, order: seq<nat>)
    requires EdgesBelow(edges, n) && Greedy(edges, n, order)
    requires forall i: nat :: !Available(edges, n, DoneBy(order), i)
    ensures |order| == n ==> OrdersAll(n, order) && Respects(edges, order) && !Cyclic(edges)
    ensures |order| != n ==> Cyclic(edges)
  {
    if |order| == n {
      FullGreedyOrder(edges, n, order);
      CyclicHasNoOrder(edges, n, order);
    } else {
      NotAllDone(edges, n, order);
      StuckIsCyclic(edges, n, DoneBy(order));
    }
  }

  method Smallest(s: set<nat>) returns (m: nat)
    requires s != {}
    ensures m in s && forall i :: i in s ==> m <= i
  {
    m :| m in s;
    var rest := s - {m};
    while rest != {}
      invariant rest <= s && m in s
      invariant forall i :: i in s && i !in rest ==> m <= i
    {
      var i :| i in rest;
      rest := rest - {i};
      if i < m {
        m := i;
      }
    }
  }

  lemma DependentWaits(edges: Edges, n: nat, before: set<nat>, index: nat, dependent: nat)
    requires (index, dependent) in edges && index !in before && EdgesBelow(edges, n)
    ensures Waiting(edges, before, dependent) != {} && dependent != index && dependent < n
  {
    assert index in Waiting(edges, before, dependent);
  }

  lemma EmptyIsGreedy(edges: Edges, n: nat)
    ensures Greedy(edges, n, []) && DoneBy([]) == {}
  {}

  lemma GreedyStep(edges: Edges, n: nat, order: seq<nat>, next: nat)
    requires Greedy(edges, n, order)
    requires Available(edges, n, DoneBy(order), next)
    requires forall j: nat :: Available(edges, n, DoneBy(order), j) ==> next <= j
    ensures Greedy(edges, n, order + [next])
    ensures next < n && next !in DoneBy(order) && |order| < n
    ensures DoneBy(order + [next]) == DoneBy(order) + {next}
    ensures forall i: nat :: i in DoneBy(order) ==> Waiting(edges, DoneBy(order), i) == {}
  {
    var longer := order + [next];
    forall k | 0 <= k < |longer|
      ensures Available(edges, n, DoneBy(longer[..k]), longer[k])
      ensures forall j: nat :: Available(edges, n, DoneBy(longer[..k]), j) ==> longer[k] <= j
    {
      assert longer[..k] == order[..k];
      assert order[..|order|] == order;
    }
    GreedyLength(edges, n, longer);
    GreedyIsClosed(edges, n, order);
  }

  /** Nothing done still waits. */
  lemma GreedyIsClosed(edges: Edges, n: nat, order: seq<nat>)
    requires Greedy(edges, n, order)
    ensures forall i: nat :: i in DoneBy(order) ==> Waiting(edges, DoneBy(order), i) == {}
  {
    forall i: nat | i in DoneBy(order)
      ensures Waiting(edges, DoneBy(order), i) == {}
    {
      var k :| 0 <= k < |order| && order[k] == i;
      assert Available(edges, n, DoneBy(order[..k]), order[k]);
      assert Waiting(edges, DoneBy(order), i) <= Waiting(edges, DoneBy(order[..k]), i);
    }
  }

  lemma GreedyLength(edges: Edges, n: nat, order: seq<nat>)
    requires Greedy(edges, n, order)
    ensures |order| <= n
  {
    GreedyIsDistinct(edges, n, order);
    DistinctSize(order);
    SubsetSize(DoneBy(order), Below(n));
  }

  lemma NotAllDone(edges: Edges, n: nat, order: seq<nat>)
    requires Greedy(edges, n, order) && |order| != n
    ensures exists i: nat :: i < n && i !in DoneBy(order)
  {
    GreedyIsDistinct(edges, n, order);
    DistinctSize(order);
    assert DoneBy(order) != Below(n);
    SubsetSize(DoneBy(order), Below(n));
  }

  /** Finishing one step removes it from what its dependents wait for. */
  lemma WaitingAfter(edges: Edges, n: nat, before: set<nat>, index: nat)
    requires EdgesBelow(edges, n) && index !in before
    ensures forall i: nat :: (index, i) in edges ==>
              |Waiting(edges, before, i)| == |Waiting(edges, before + {index}, i)| + 1
    ensures forall i: nat :: (index, i) !in edges ==> Waiting(edges, before + {index}, i) == Waiting(edges, before, i)
  {
    forall i: nat | (index, i) in edges
      ensures |Waiting(edges, before, i)| == |Waiting(edges, before + {index}, i)| + 1
    {
      assert index in Waiting(edges, before, i);
      assert Waiting(edges, before, i) == Waiting(edges, before + {index}, i) + {index};
    }
    forall i: nat | (index, i) !in edges
      ensures Waiting(edges, before + {index}, i) == Waiting(edges, before, i)
    {}
  }
}
