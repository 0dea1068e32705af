/**
 * The three lowerings of a draft read (packages/db/src/draft-select-builder.ts): the full
 * overlay join, the point plan that pushes a primary-key equality into both sides, and the
 * bounded plan that scans only the canonical top L + M. All three return the same list.
 */
module ReadPlans {
  import opened Common
  import opened DraftOverlay

  datatype Item = Item(key: Key, row: Row)

  datatype FilterOp = Eq | Ne | Gt | Gte | Lt | Lte

  datatype Filter = Filter(op: FilterOp, column: Column, value: Value)

  datatype Clauses = Clauses(filters: seq<Filter>, orderBy: Option<Column>, descending: bool, limit: Option<nat>)

  datatype Plan = Point(key: Key) | Bounded | Overlay

  /** The database's comparison of non-null values (collations and type orders are abstract). */
  type Less = (Value, Value) -> bool

  ghost predicate StrictTotalOrder(less: Less) {
    && (forall x :: !less(x, x))
    && (forall x, y, z {:trigger less(x, y), less(y, z)} :: less(x, y) && less(y, z) ==> less(x, z))
    && (forall x, y :: x != y ==> less(x, y) || less(y, x))
  }

  datatype Query = Query(schema: Schema, less: Less, clauses: Clauses)

  function Cell(schema: Schema, item: Item, c: Column): Value {
    if c == schema.pk then item.key else if c in item.row then item.row[c] else Null
  }

  /** A SQL comparison: a NULL on either side is not true. */
  predicate Holds(less: Less, f: Filter, cell: Value) {
    && cell != Null
    && f.value != Null
    && match f.op
       case Eq => cell == f.value
       case Ne => cell != f.value
       case Gt => less(f.value, cell)
       case Gte => cell == f.value || less(f.value, cell)
       case Lt => less(cell, f.value)
       case Lte => cell == f.value || less(cell, f.value)
  }

  predicate Matches(q: Query, item: Item) {
    forall i :: 0 <= i < |q.clauses.filters| ==>
      Holds(q.less, q.clauses.filters[i], Cell(q.schema, item, q.clauses.filters[i].column))
  }

  /** `ORDER BY cell ASC`: NULLs last. Descending swaps the arguments, so NULLs come first. */
  predicate SortsBefore(less: Less, x: Value, y: Value) {
    if y == Null then x != Null else x != Null && less(x, y)
  }

  /** `ORDER BY column [DESC], pk`, or `ORDER BY pk` when the caller named no column. */
  predicate Before(q: Query, a: Item, b: Item) {
    match q.clauses.orderBy
    case None => SortsBefore(q.less, a.key, b.key)
    case Some(c) =>
      var x, y := Cell(q.schema, a, c), Cell(q.schema, b, c);
      || (if q.clauses.descending then SortsBefore(q.less, y, x) else SortsBefore(q.less, x, y))
      || (x == y && SortsBefore(q.less, a.key, b.key))
  }

  function ClauseOrder(q: Query): Order {
    (a, b) => Before(q, a, b)
  }

  // ---------------------------------------------------------------------------------------
  // ORDER BY ... LIMIT n over a set of rows
  // ---------------------------------------------------------------------------------------

  type Order = (Item, Item) -> bool

  ghost predicate Orders(before: Order, items: set<Item>) {
    && (forall a {:trigger before(a, a)} :: a in items ==> !before(a, a))
    && (forall a, b, c {:trigger before(a, b), before(b, c)} :: a in items && b in items && c in items && before(a, b) && before(b, c) ==> before(a, c))
    && (forall a, b {:trigger before(a, b)} :: a in items && b in items && a != b ==> before(a, b) || before(b, a))
  }

  ghost predicate Sorted(s: seq<Item>, before: Order) {
    forall i, j :: 0 <= i < j < |s| ==> before(s[i], s[j])
  }

  /** `top` lists the first `n` items: sorted, as many as there are, everything left out coming later. */
  ghost predicate IsTop(items: set<Item>, n: nat, before: Order, top: seq<Item>) {
    && Sorted(top, before)
    && |top| == (if n <= |items| then n else |items|)
    && (forall i :: 0 <= i < |top| ==> top[i] in items)
    && (forall x, i :: x in items && x !in top && 0 <= i < |top| ==> before(top[i], x))
  }

  lemma LeastExists(items: set<Item>, before: Order) returns (m: Item)
    requires items != {} && Orders(before, items)
    ensures m in items && forall x :: x in items && x != m ==> before(m, x)
  {
    var a :| a in items;
    m := a;
    var rest := items - {a};
    if rest != {} {
      var least := LeastExists(rest, before);
      assert before(a, least) || before(least, a);
      if before(least, a) {
        m := least;
      } else {
        forall x | x in rest
          ensures before(a, x)
        {
          assert x == least || before(least, x);
        }
      }
    } else {
      assert items == {a};
    }
  }

  lemma {:induction false} TopExists(items: set<Item>, n: nat, before: Order) returns (top: seq<Item>)
    requires Orders(before, items)
    ensures IsTop(items, n, before, top)
    decreases n
  {
    if n == 0 || items == {} {
      top := [];
    } else {
      var m := LeastExists(items, before);
      var rest := TopExists(items - {m}, n - 1, before);
      top := [m] + rest;
      assert forall i :: 0 < i < |top| ==> top[i] == rest[i - 1];
    }
  }

  lemma SomeTop(items: set<Item>, n: nat, before: Order)
    requires Orders(before, items)
    ensures exists top :: IsTop(items, n, before, top)
  {
    var top := TopExists(items, n, before);
  }

  lemma TopIsUnique(items: set<Item>, n: nat, before: Order, s: seq<Item>, t: seq<Item>)
    requires Orders(before, items)
    requires IsTop(items, n, before, s) && IsTop(items, n, before, t)
    ensures s == t
  {
    for i := 0 to |s|
      invariant s[..i] == t[..i]
    {
      FirstToDiffer(items, n, before, s, t, i);
      FirstToDiffer(items, n, before, t, s, i);
      NoReturn(items, before, s[i], t[i]);
      assert s[..i + 1] == s[..i] + [s[i]] && t[..i + 1] == t[..i] + [t[i]];
    }
    assert s == s[..|s|] && t == t[..|t|];
  }

  lemma NoReturn(items: set<Item>, before: Order, a: Item, b: Item)
    requires Orders(before, items) && a in items && b in items
    ensures before(a, b) ==> !before(b, a)
  {
    assert before(a, b) && before(b, a) ==> before(a, a);
  }

  lemma FirstToDiffer(items: set<Item>, n: nat, before: Order, s: seq<Item>, t: seq<Item>, i: nat)
    requires Orders(before, items)
    requires IsTop(items, n, before, s) && IsTop(items, n, before, t)
    requires i < |s| && s[..i] == t[..i]
    ensures s[i] == t[i] || before(t[i], s[i])
  {
    forall k | 0 <= k < i
      ensures t[k] != s[i]
    {
      assert t[k] == t[..i][k] == s[..i][k] == s[k];
      assert before(s[k], s[i]) && !before(s[i], s[i]);
    }
  }

  /** The first `n` items in order: `ORDER BY ... LIMIT n`. */
  ghost function Top(items: set<Item>, n: nat, before: Order): (top: seq<Item>)
    requires Orders(before, items)
    ensures IsTop(items, n, before, top)
  {
    SomeTop(items, n, before);
    var top :| IsTop(items, n, before, top);
    top
  }

  ghost function Limited(items: set<Item>, limit: Option<nat>, before: Order): seq<Item>
    requires Orders(before, items)
  {
    Top(items, if limit.Some? then limit.value else |items|, before)
  }

  ghost function Earlier(items: set<Item>, x: Item, before: Order): set<Item> {
    set y | y in items && before(y, x)
  }

  lemma {:induction false} DistinctSequence(s: seq<Item>, before: Order)
    requires Sorted(s, before)
    requires forall i :: 0 <= i < |s| ==> !before(s[i], s[i])
    ensures |set x | x in s| == |s|
  {
    if s == [] {
      assert (set x | x in s) == {};
    } else {
      var init, last := s[..|s| - 1], s[|s| - 1];
      DistinctSequence(init, before);
      assert forall i :: 0 <= i < |init| ==> before(init[i], last);
      assert (set x | x in s) == (set x | x in init) + {last};
    }
  }

  /** Fewer than `n` items precede the i-th of the first `n`. */
  lemma FewPrecede(items: set<Item>, n: nat, before: Order, top: seq<Item>, i: nat)
    requires Orders(before, items) && IsTop(items, n, before, top) && i < |top|
    ensures |Earlier(items, top[i], before)| < n
  {
    var prefix := top[..i];
    forall y | y in items && (y !in top || y in top[i..])
      ensures !before(y, top[i])
    {
      NoReturn(items, before, top[i], y);
    }
    assert top == prefix + top[i..];
    DistinctSequence(prefix, before);
    SubsetSize(Earlier(items, top[i], before), set x | x in prefix);
  }

  /** Rows that at least `n` kept rows precede cannot reach the first `n`. */
  lemma PruningKeepsTop(all: set<Item>, kept: set<Item>, n: nat, before: Order)
    requires Orders(before, all) && Orders(before, kept) && kept <= all
    requires forall x :: x in all - kept ==> |Earlier(kept, x, before)| >= n
    ensures Top(all, n, before) == Top(kept, n, before)
  {
    var top := Top(all, n, before);
    forall i | 0 <= i < |top|
      ensures top[i] in kept
    {
      FewPrecede(all, n, before, top, i);
      SubsetSize(Earlier(kept, top[i], before), Earlier(all, top[i], before));
    }
    DistinctSequence(top, before);
    SubsetSize((set x | x in top), kept);
    SubsetSize(kept, all);
    TopIsUnique(kept, n, before, top, Top(kept, n, before));
  }

  /** `first()` narrows: a smaller limit returns a prefix. */
  lemma SmallerLimitIsPrefix(items: set<Item>, n: nat, m: nat, before: Order)
    requires Orders(before, items) && n <= m
    ensures Top(items, n, before) <= Top(items, m, before)
  {
    var whole := Top(items, m, before);
    var length := if n <= |whole| then n else |whole|;
    var prefix := whole[..length];
    assert whole == prefix + whole[length..];
    forall x, i | x in items && x !in prefix && 0 <= i < |prefix|
      ensures before(prefix[i], x)
    {
      assert x in whole ==> x in whole[length..];
    }
    TopIsUnique(items, n, before, prefix, Top(items, n, before));
  }

  // ---------------------------------------------------------------------------------------
  // The plans
  // ---------------------------------------------------------------------------------------

  function Items(table: Table): set<Item> {
    set k | k in table :: Item(k, table[k])
  }

  function Selected(q: Query, table: Table): set<Item> {
    set item | item in Items(table) && Matches(q, item)
  }

  lemma ItemsIff(table: Table, x: Item)
    ensures x in Items(table) <==> x.key in table && table[x.key] == x.row
  {}

  /** The order is strict and separates rows of different keys. */
  ghost predicate TotalOnRows(before: Order) {
    && (forall a {:trigger before(a, a)} :: !before(a, a))
    && (forall a, b, c {:trigger before(a, b), before(b, c)} :: before(a, b) && before(b, c) ==> before(a, c))
    && (forall a: Item, b: Item {:trigger before(a, b)} :: a.key != b.key ==> before(a, b) || before(b, a))
  }

  /** The primary-key tiebreaker makes every clause order total, NULLs and descending included. */
  lemma ClauseOrderIsTotal(q: Query)
    requires StrictTotalOrder(q.less)
    ensures TotalOnRows(ClauseOrder(q))
  {}

  lemma RowsAreOrdered(q: Query, table: Table)
    requires TotalOnRows(ClauseOrder(q))
    ensures Orders(ClauseOrder(q), Selected(q, table))
  {
    SelectedKeysAreDistinct(q, table);
  }

  lemma SelectedKeysAreDistinct(q: Query, table: Table)
    ensures forall a, b :: a in Selected(q, table) && b in Selected(q, table) && a.key == b.key ==> a == b
  {}

  /** The shared tail of every lowering: join, filter on effective values, order, limit. */
  ghost function Coalesce(q: Query, base: Table, changes: Changes): seq<Item>
    requires TotalOnRows(ClauseOrder(q))
  {
    var view := View(q.schema, base, changes);
    RowsAreOrdered(q, view);
    Limited(Selected(q, view), q.clauses.limit, ClauseOrder(q))
  }

  function Only<V>(m: map<Key, V>, key: Key): map<Key, V> {
    map k | k in m && k == key :: m[k]
  }

  /** `base_top`: canonical rows that pass the filters, cut to the first L + M when there is a limit. */
  ghost function BaseTop(q: Query, base: Table, changes: Changes): set<Item>
    requires TotalOnRows(ClauseOrder(q))
  {
    var passing := Selected(q, base);
    if q.clauses.limit.None? then passing
    else
      RowsAreOrdered(q, base);
      var top := Top(passing, q.clauses.limit.value + |changes|, ClauseOrder(q));
      set item | item in top
  }

  /** `candidate_base`: the unchanged rows of `base_top`, and every canonical row the draft changes. */
  ghost function CandidateBase(q: Query, base: Table, changes: Changes): Table
    requires TotalOnRows(ClauseOrder(q))
  {
    var top := BaseTop(q, base, changes);
    map k | k in base && (k in changes || Item(k, base[k]) in top) :: base[k]
  }

  predicate IsPkEquality(schema: Schema, f: Filter) {
    f.op == Eq && f.column == schema.pk
  }

  /** The first primary-key equality wins; otherwise any filter or limit selects the bounded plan. */
  function ChoosePlan(q: Query): Plan {
    var i := FirstPkEquality(q.schema, q.clauses.filters);
    if i < |q.clauses.filters| then Point(q.clauses.filters[i].value)
    else if q.clauses.limit.Some? || q.clauses.filters != [] then Bounded
    else Overlay
  }

  function FirstPkEquality(schema: Schema, filters: seq<Filter>): (i: nat)
    ensures i <= |filters|
    ensures i < |filters| ==> IsPkEquality(schema, filters[i])
    ensures forall j :: 0 <= j < i ==> !IsPkEquality(schema, filters[j])
  {
    if filters == [] || IsPkEquality(schema, filters[0]) then 0
    else 1 + FirstPkEquality(schema, filters[1..])
  }

  ghost function Execute(plan: Plan, q: Query, base: Table, changes: Changes): seq<Item>
    requires TotalOnRows(ClauseOrder(q))
  {
    match plan
    case Overlay => Coalesce(q, base, changes)
    case Point(key) => Coalesce(q, Only(base, key), Only(changes, key))
    case Bounded => Coalesce(q, CandidateBase(q, base, changes), changes)
  }

  // ---------------------------------------------------------------------------------------
  // The plans agree
  // ---------------------------------------------------------------------------------------

  lemma PointPlanIsOverlay(q: Query, base: Table, changes: Changes, i: nat)
    requires TotalOnRows(ClauseOrder(q))
    requires i < |q.clauses.filters| && IsPkEquality(q.schema, q.clauses.filters[i])
    ensures var key := q.clauses.filters[i].value;
            Execute(Point(key), q, base, changes) == Execute(Overlay, q, base, changes)
  {
    var key := q.clauses.filters[i].value;
    var whole, narrow := View(q.schema, base, changes), View(q.schema, Only(base, key), Only(changes, key));
    forall item
      ensures item in Selected(q, whole) <==> item in Selected(q, narrow)
    {
      if Matches(q, item) {
        assert Holds(q.less, q.clauses.filters[i], Cell(q.schema, item, q.clauses.filters[i].column));
        assert item.key == key;
        assert key in whole <==> key in narrow;
        assert key in whole ==> whole[key] == narrow[key];
      }
    }
    assert Selected(q, whole) == Selected(q, narrow);
  }

  /** A subset of `s` loses at most `|removed|` elements when `removed` keys are taken out. */
  lemma FewAreChanged(s: set<Item>, keys: set<Key>)
    requires forall a, b :: a in s && b in s && a.key == b.key ==> a == b
    ensures |set x | x in s && x.key !in keys| >= |s| - |keys|
    decreases |keys|
  {
    var untouched := set x | x in s && x.key !in keys;
    if keys == {} {
      assert untouched == s;
    } else {
      var key :| key in keys;
      FewAreChanged(s, keys - {key});
      var before := set x | x in s && x.key !in keys - {key};
      if x :| x in before && x.key == key {
        assert before - {x} == untouched;
      } else {
        assert before == untouched;
      }
    }
  }

  /** The heart of the bounded plan: a row outside the top L + M has L unchanged rows in front of it. */
  lemma BelowTheBound(passing: set<Item>, changed: set<Key>, kept: set<Item>, limit: nat, before: Order, x: Item)
    requires Orders(before, passing)
    requires forall a, b :: a in passing && b in passing && a.key == b.key ==> a == b
    requires x in passing && x !in Top(passing, limit + |changed|, before)
    requires forall y :: y in Top(passing, limit + |changed|, before) && y.key !in changed ==> y in kept
    ensures |Earlier(kept, x, before)| >= limit
  {
    var top := Top(passing, limit + |changed|, before);
    DistinctSequence(top, before);
    var inTop := set y | y in top;
    if |top| == |passing| {
      SubsetSize(inTop, passing);
    }
    FewAreChanged(inTop, changed);
    var untouched := set y | y in inTop && y.key !in changed;
    SubsetSize(untouched, Earlier(kept, x, before));
  }

  /** A scan of `passing` cut at `limit + |changed|` may leave rows of `all` out of `kept` only below the cut. */
  ghost predicate Scans(all: set<Item>, passing: set<Item>, kept: set<Item>, changed: set<Key>, limit: nat, before: Order)
    requires Orders(before, passing)
  {
    && kept <= all
    && (forall a, b :: a in passing && b in passing && a.key == b.key ==> a == b)
    && (forall x :: x in all && x !in kept ==> x in passing && x !in Top(passing, limit + |changed|, before))
    && (forall y :: y in Top(passing, limit + |changed|, before) && y.key !in changed ==> y in kept)
  }

  /** The pruning argument on the three row sets involved. */
  lemma BoundedScanIsExact(all: set<Item>, passing: set<Item>, kept: set<Item>, changed: set<Key>, limit: nat, before: Order)
    requires Orders(before, all) && Orders(before, kept) && Orders(before, passing)
    requires Scans(all, passing, kept, changed, limit, before)
    ensures Top(all, limit, before) == Top(kept, limit, before)
  {
    forall x | x in all - kept
      ensures |Earlier(kept, x, before)| >= limit
    {
      BelowTheBound(passing, changed, kept, limit, before, x);
    }
    PruningKeepsTop(all, kept, limit, before);
  }

  /** Where the candidate base differs from the base: unchanged rows outside `base_top`. */
  lemma CandidateLookup(q: Query, base: Table, changes: Changes, k: Key)
    requires TotalOnRows(ClauseOrder(q))
    ensures var candidates := CandidateBase(q, base, changes);
            && (k in changes ==> Lookup(candidates, k) == Lookup(base, k))
            && (k !in base ==> k !in candidates)
            && (k in base && k !in changes ==>
                  (k in candidates <==> Item(k, base[k]) in BaseTop(q, base, changes)))
            && (k in candidates ==> k in base && candidates[k] == base[k])
  {}

  /** What the bounded plan selects from. */
  ghost function Kept(q: Query, base: Table, changes: Changes): set<Item>
    requires TotalOnRows(ClauseOrder(q))
  {
    Selected(q, View(q.schema, CandidateBase(q, base, changes), changes))
  }

  lemma KeptRowsAreRows(q: Query, base: Table, changes: Changes)
    requires TotalOnRows(ClauseOrder(q))
    ensures Kept(q, base, changes) <= Selected(q, View(q.schema, base, changes))
  {
    forall x | x in Kept(q, base, changes)
      ensures x in Selected(q, View(q.schema, base, changes))
    {
      CandidateLookup(q, base, changes, x.key);
      SelectedIff(q, CandidateBase(q, base, changes), changes, x);
      SelectedIff(q, base, changes, x);
    }
  }

  lemma SelectedIff(q: Query, base: Table, changes: Changes, x: Item)
    ensures x in Selected(q, View(q.schema, base, changes))
       <==> Effective(q.schema, Lookup(base, x.key), Lookup(changes, x.key)) == Some(x.row)
            && Matches(q, x)
  {
    ItemsIff(View(q.schema, base, changes), x);
  }

  /** A selected row survives into the candidates exactly when it is changed or in `base_top`. */
  lemma KeptIff(q: Query, base: Table, changes: Changes, x: Item)
    requires TotalOnRows(ClauseOrder(q))
    ensures x in Selected(q, View(q.schema, base, changes)) && x !in Kept(q, base, changes) ==>
              x.key !in changes && x in Selected(q, base) && x !in BaseTop(q, base, changes)
    ensures x in BaseTop(q, base, changes) && x in Selected(q, base) && x.key !in changes ==>
              x in Kept(q, base, changes)
  {
    CandidateLookup(q, base, changes, x.key);
    SelectedIff(q, CandidateBase(q, base, changes), changes, x);
    SelectedIff(q, base, changes, x);
    ItemsIff(base, x);
  }

  lemma UnlimitedScanIsOverlay(q: Query, base: Table, changes: Changes)
    requires TotalOnRows(ClauseOrder(q)) && q.clauses.limit.None?
    ensures Kept(q, base, changes) == Selected(q, View(q.schema, base, changes))
  {
    KeptRowsAreRows(q, base, changes);
    forall x | x in Selected(q, View(q.schema, base, changes))
      ensures x in Kept(q, base, changes)
    {
      KeptIff(q, base, changes, x);
    }
  }

  lemma BaseTopIs(q: Query, base: Table, changes: Changes, x: Item)
    requires TotalOnRows(ClauseOrder(q)) && q.clauses.limit.Some?
    ensures Orders(ClauseOrder(q), Selected(q, base))
    ensures var top := Top(Selected(q, base), q.clauses.limit.value + |changes.Keys|, ClauseOrder(q));
            && (x in top <==> x in BaseTop(q, base, changes))
            && (x in top ==> x in Selected(q, base))
  {
    assert |changes.Keys| == |changes|;
    RowsAreOrdered(q, base);
  }

  lemma BaseTopScansItem(q: Query, base: Table, changes: Changes, limit: nat, x: Item)
    requires TotalOnRows(ClauseOrder(q)) && q.clauses.limit == Some(limit)
    requires Orders(ClauseOrder(q), Selected(q, base))
    ensures x in Selected(q, View(q.schema, base, changes)) && x !in Kept(q, base, changes) ==>
              x in Selected(q, base) && x !in Top(Selected(q, base), limit + |changes.Keys|, ClauseOrder(q))
    ensures x in Top(Selected(q, base), limit + |changes.Keys|, ClauseOrder(q)) && x.key !in changes.Keys ==>
              x in Kept(q, base, changes)
  {
    KeptIff(q, base, changes, x);
    BaseTopIs(q, base, changes, x);
  }

  lemma BaseTopScans(q: Query, base: Table, changes: Changes, limit: nat)
    requires TotalOnRows(ClauseOrder(q)) && q.clauses.limit == Some(limit)
    requires Orders(ClauseOrder(q), Selected(q, base))
    ensures Scans(Selected(q, View(q.schema, base, changes)), Selected(q, base), Kept(q, base, changes),
                  changes.Keys, limit, ClauseOrder(q))
  {
    KeptRowsAreRows(q, base, changes);
    SelectedKeysAreDistinct(q, base);
    forall x: Item { BaseTopScansItem(q, base, changes, limit, x); }
  }

  lemma BoundedPlanIsOverlay(q: Query, base: Table, changes: Changes)
    requires TotalOnRows(ClauseOrder(q))
    ensures Execute(Bounded, q, base, changes) == Execute(Overlay, q, base, changes)
  {
    var all, kept := Selected(q, View(q.schema, base, changes)), Kept(q, base, changes);
    RowsAreOrdered(q, View(q.schema, base, changes));
    RowsAreOrdered(q, View(q.schema, CandidateBase(q, base, changes), changes));
    RowsAreOrdered(q, base);
    if q.clauses.limit.Some? {
      BaseTopScans(q, base, changes, q.clauses.limit.value);
      BoundedScanIsExact(all, Selected(q, base), kept, changes.Keys, q.clauses.limit.value, ClauseOrder(q));
    } else {
      UnlimitedScanIsOverlay(q, base, changes);
    }
  }

  /** Whichever lowering is chosen, a draft read returns the overlay's list. */
  lemma PlansAgree(q: Query, base: Table, changes: Changes)
    requires StrictTotalOrder(q.less)
    ensures TotalOnRows(ClauseOrder(q))
    ensures Execute(ChoosePlan(q), q, base, changes) == Execute(Overlay, q, base, changes)
  {
    ClauseOrderIsTotal(q);
    ChosenPlanIsOverlay(q, base, changes);
  }

  lemma ChosenPlanIsOverlay(q: Query, base: Table, changes: Changes)
    requires TotalOnRows(ClauseOrder(q))
    ensures Execute(ChoosePlan(q), q, base, changes) == Execute(Overlay, q, base, changes)
  {
    match ChoosePlan(q)
    case Point(_) => PointPlanIsOverlay(q, base, changes, FirstPkEquality(q.schema, q.clauses.filters));
    case Bounded => BoundedPlanIsOverlay(q, base, changes);
    case Overlay =>
  }

  /** And that list is the effective table's matching rows: sorted, each once, cut at the limit. */
  lemma ReadReturnsEffectiveRows(q: Query, base: Table, changes: Changes)
    requires TotalOnRows(ClauseOrder(q))
    ensures IsAnswer(q, View(q.schema, base, changes), Execute(ChoosePlan(q), q, base, changes))
  {
    ChosenPlanIsOverlay(q, base, changes);
    LimitedIsAnswer(q, View(q.schema, base, changes));
  }

  /** `rows` answers the query over `table`. */
  ghost predicate IsAnswer(q: Query, table: Table, rows: seq<Item>) {
    && (forall i, j :: 0 <= i < j < |rows| ==> Before(q, rows[i], rows[j]) && rows[i].key != rows[j].key)
    && (forall x :: x in rows ==> x.key in table && table[x.key] == x.row && Matches(q, x))
    && (q.clauses.limit.Some? ==> |rows| <= q.clauses.limit.value)
    && (forall x: Item :: x.key in table && table[x.key] == x.row && Matches(q, x) && x !in rows ==>
          q.clauses.limit == Some(|rows|) && forall i :: 0 <= i < |rows| ==> Before(q, rows[i], x))
  }

  lemma LimitedIsAnswer(q: Query, table: Table)
    requires TotalOnRows(ClauseOrder(q))
    ensures Orders(ClauseOrder(q), Selected(q, table))
    ensures IsAnswer(q, table,
                     Limited(Selected(q, table), q.clauses.limit, ClauseOrder(q)))
  {
    var before := ClauseOrder(q);
    var selected := Selected(q, table);
    var n := if q.clauses.limit.Some? then q.clauses.limit.value else |selected|;
    RowsAreOrdered(q, table);
    var rows := Top(selected, n, before);
    DistinctSequence(rows, before);
    if |rows| == |selected| {
      SubsetSize((set x | x in rows), selected);
    }
    forall x
      ensures x in selected <==> x.key in table && table[x.key] == x.row && Matches(q, x)
    {
      ItemsIff(table, x);
    }
    forall i, j | 0 <= i < j < |rows|
      ensures rows[i].key != rows[j].key
    {
      assert before(rows[i], rows[j]) && !before(rows[i], rows[i]);
      assert rows[i] in selected && rows[j] in selected;
    }
  }

  // ---------------------------------------------------------------------------------------
  // The answer by its cells
  // ---------------------------------------------------------------------------------------

  /** Of two values, neither NULL, the first is not the greater; a NULL is never before a value. */
  ghost predicate Ascends(less: Less, x: Value, y: Value) {
    (x != Null && y != Null ==> !less(y, x)) && (x == Null ==> y == Null)
  }

  /** The value a row shows in a column. */
  ghost function Shown(schema: Schema, item: Item, c: Column): Value {
    if c in item.row && c != schema.pk then item.row[c] else if c == schema.pk then item.key else Null
  }

  /**
   * Two rows in the order asked for. Ascending, cells do not fall and NULLs come last; descending,
   * cells do not rise and NULLs come first; equal cells, or no order at all, leave keys ascending.
   */
  ghost predicate InClauseOrder(q: Query, a: Item, b: Item) {
    match q.clauses.orderBy
    case None => Ascends(q.less, a.key, b.key)
    case Some(c) =>
      && (!q.clauses.descending ==> Ascends(q.less, Shown(q.schema, a, c), Shown(q.schema, b, c)))
      && (q.clauses.descending ==> Ascends(q.less, Shown(q.schema, b, c), Shown(q.schema, a, c)))
      && (Shown(q.schema, a, c) == Shown(q.schema, b, c) ==> Ascends(q.less, a.key, b.key))
  }

  /** The filters, by what they rule out. */
  ghost predicate Passes(q: Query, item: Item) {
    forall f :: f in q.clauses.filters ==> Allows(q.less, f, Shown(q.schema, item, f.column))
  }

  ghost predicate Allows(less: Less, f: Filter, cell: Value) {
    && f.value != Null && cell != Null
    && (f.op == Eq || f.op == Ne ==> (cell == f.value <==> f.op == Eq))
    && (f.op == Gt || f.op == Gte ==> !less(cell, f.value))
    && (f.op == Lt || f.op == Lte ==> !less(f.value, cell))
    && (f.op == Gt || f.op == Lt ==> cell != f.value)
  }

  lemma HoldsIffAllows(less: Less, f: Filter, cell: Value)
    requires StrictTotalOrder(less)
    ensures Holds(less, f, cell) <==> Allows(less, f, cell)
  {
    assert cell != f.value ==> less(cell, f.value) || less(f.value, cell);
    assert less(cell, f.value) && less(f.value, cell) ==> less(cell, cell);
  }

  lemma MatchesIffPasses(q: Query, item: Item)
    requires StrictTotalOrder(q.less)
    ensures Matches(q, item) <==> Passes(q, item)
  {
    hide StrictTotalOrder, Holds, Allows;
    forall f: Filter
      ensures Holds(q.less, f, Cell(q.schema, item, f.column)) <==> Allows(q.less, f, Shown(q.schema, item, f.column))
    {
      HoldsIffAllows(q.less, f, Cell(q.schema, item, f.column));
    }
  }

  /** On rows of different keys the clause order is the order asked for, and nothing else. */
  lemma BeforeIffInOrder(q: Query, a: Item, b: Item)
    requires StrictTotalOrder(q.less) && a.key != b.key
    ensures Before(q, a, b) <==> InClauseOrder(q, a, b)
  {
    assert forall x, y :: q.less(x, y) && q.less(y, x) ==> q.less(x, x);
  }

  /** What a read must return: rows of the effective table that pass the filters, in the order asked for, the first of them when limited. */
  ghost predicate Answers(q: Query, table: Table, rows: seq<Item>) {
    && (forall i, j :: 0 <= i < j < |rows| ==> rows[i].key != rows[j].key && InClauseOrder(q, rows[i], rows[j]))
    && (forall x :: x in rows ==> x.key in table && table[x.key] == x.row && Passes(q, x))
    && (q.clauses.limit.Some? ==> |rows| <= q.clauses.limit.value)
    && (forall x: Item :: x.key in table && table[x.key] == x.row && Passes(q, x) && x !in rows ==>
          q.clauses.limit == Some(|rows|) && forall i :: 0 <= i < |rows| ==> InClauseOrder(q, rows[i], x))
  }

  /** Whatever plan is chosen, the rows come back filtered, ordered and cut as the clauses say, cell by cell. */
  lemma ReadAnswersQuery(q: Query, base: Table, changes: Changes)
    requires StrictTotalOrder(q.less)
    ensures TotalOnRows(ClauseOrder(q))
    ensures Answers(q, View(q.schema, base, changes), Execute(ChoosePlan(q), q, base, changes))
  {
    hide StrictTotalOrder, Before, Matches, Passes, InClauseOrder, View, Execute, ChoosePlan;
    ClauseOrderIsTotal(q);
    ReadReturnsEffectiveRows(q, base, changes);
    var table, rows := View(q.schema, base, changes), Execute(ChoosePlan(q), q, base, changes);
    forall x
      ensures Matches(q, x) <==> Passes(q, x)
    {
      MatchesIffPasses(q, x);
    }
    forall a: Item, b: Item | a.key != b.key
      ensures Before(q, a, b) <==> InClauseOrder(q, a, b)
    {
      BeforeIffInOrder(q, a, b);
    }
    forall x: Item, i | x.key in table && table[x.key] == x.row && Passes(q, x) && x !in rows && 0 <= i < |rows|
      ensures InClauseOrder(q, rows[i], x)
    {
      assert rows[i] in rows;
    }
  }

  /** The plan is the narrowest that applies: a key equality, else a bound by filter or limit, else the whole join. */
  lemma PlanChosen(q: Query)
    ensures ChoosePlan(q).Point? <==> exists f :: f in q.clauses.filters && IsPkEquality(q.schema, f)
    ensures ChoosePlan(q).Point? ==>
              exists f :: f in q.clauses.filters && IsPkEquality(q.schema, f) && f.value == ChoosePlan(q).key
    ensures ChoosePlan(q).Overlay? <==> q.clauses.filters == [] && q.clauses.limit.None?
  {
    var filters := q.clauses.filters;
    var i := FirstPkEquality(q.schema, filters);
    if i < |filters| {
      assert filters[i] in filters;
    }
  }

  // ---------------------------------------------------------------------------------------
  // first()
  // ---------------------------------------------------------------------------------------

  /** A limit override narrows the caller's limit; it never widens it. */
  function Narrowed(q: Query, n: nat): Query {
    var limit := if q.clauses.limit.Some? && q.clauses.limit.value < n then q.clauses.limit.value else n;
    q.(clauses := q.clauses.(limit := Some(limit)))
  }

  /** `first()` is the head of `all()`, although it may be lowered through a different plan. */
  lemma FirstIsHeadOfAll(q: Query, base: Table, changes: Changes)
    requires StrictTotalOrder(q.less)
    ensures TotalOnRows(ClauseOrder(q)) && TotalOnRows(ClauseOrder(Narrowed(q, 1)))
    ensures var all := Execute(ChoosePlan(q), q, base, changes);
            Execute(ChoosePlan(Narrowed(q, 1)), Narrowed(q, 1), base, changes) == if all == [] then [] else [all[0]]
  {
    hide StrictTotalOrder;
    var one := Narrowed(q, 1);
    ClauseOrderIsTotal(q);
    ClauseOrderIsTotal(one);
    var view := View(q.schema, base, changes);
    var selected := Selected(q, view);
    var n, m := one.clauses.limit.value, if q.clauses.limit.Some? then q.clauses.limit.value else |selected|;
    ChosenPlanIsOverlay(q, base, changes);
    ChosenPlanIsOverlay(one, base, changes);
    assert selected == Selected(one, view);
    RowsAreOrdered(q, view);
    RowsAreOrdered(one, view);
    assert forall a, b :: ClauseOrder(one)(a, b) == ClauseOrder(q)(a, b);
    TopIsUnique(selected, n, ClauseOrder(q), Top(selected, n, ClauseOrder(one)), Top(selected, n, ClauseOrder(q)));
    if n <= m {
      SmallerLimitIsPrefix(selected, n, m, ClauseOrder(q));
    }
  }
}
