/** What compaction preserves: order, unkeyed commands, meaning, and incremental storage. */
module CommandLogMeaning {
  import opened Common
  import opened CommandLog

  // ---------------------------------------------------------------------------------------
  // Normal form
  // ---------------------------------------------------------------------------------------

  /** `c` can follow `log` without compaction touching anything. */
  ghost predicate Settles(log: seq<Command>, c: Command) {
    Keyed(c) ==>
      match c.kind.value
      case Create => !Mentions(log, c.compactionKey.value, {Create, Update})
      case Update => true
      case Delete => !Mentions(log, c.compactionKey.value, {Create, Update, Delete})
  }

  /** Per key at most one delete, then at most one create, then updates. */
  ghost predicate Normal(log: seq<Command>) {
    log == [] || (Normal(log[..|log| - 1]) && Settles(log[..|log| - 1], log[|log| - 1]))
  }

  lemma {:induction false} DropMentions(log: seq<Command>, key: string, kinds: set<Kind>, other: string, others: set<Kind>)
    ensures Mentions(Drop(log, key, kinds), other, others) ==> Mentions(log, other, others)
    ensures others !! kinds || other != key ==>
            (Mentions(Drop(log, key, kinds), other, others) <==> Mentions(log, other, others))
    ensures other == key && others <= kinds ==> !Mentions(Drop(log, key, kinds), other, others)
  {
    if log != [] {
      var init, last := log[..|log| - 1], log[|log| - 1];
      DropMentions(init, key, kinds, other, others);
      assert log == init + [last];
      MentionsAppend(init, last, other, others);
      MentionsAppend(Drop(init, key, kinds), last, other, others);
    }
  }

  lemma MentionsAppend(log: seq<Command>, c: Command, key: string, kinds: set<Kind>)
    ensures Mentions(log + [c], key, kinds) <==> Mentions(log, key, kinds) || Names(c, key, kinds)
  {
    if i :| 0 <= i < |log| && Names(log[i], key, kinds) {
      assert Names((log + [c])[i], key, kinds);
    }
    if Names(c, key, kinds) {
      assert Names((log + [c])[|log|], key, kinds);
    }
  }

  lemma {:induction false} DropOfUnmentioned(log: seq<Command>, key: string, kinds: set<Kind>)
    requires !Mentions(log, key, kinds)
    ensures Drop(log, key, kinds) == log
  {
    if log != [] {
      var init, last := log[..|log| - 1], log[|log| - 1];
      assert log == init + [last];
      MentionsAppend(init, last, key, kinds);
      DropOfUnmentioned(init, key, kinds);
    }
  }

  lemma {:induction false} DropKeepsNormal(log: seq<Command>, key: string, kinds: set<Kind>)
    requires Normal(log)
    ensures Normal(Drop(log, key, kinds))
  {
    if log != [] {
      var init, last := log[..|log| - 1], log[|log| - 1];
      var rest := Drop(init, key, kinds);
      DropKeepsNormal(init, key, kinds);
      if !Names(last, key, kinds) {
        if Keyed(last) {
          DropMentions(init, key, kinds, last.compactionKey.value, {Create, Update});
          DropMentions(init, key, kinds, last.compactionKey.value, {Create, Update, Delete});
        }
        assert (rest + [last])[..|rest|] == rest;
      }
    }
  }

  lemma AbsorbKeepsNormal(log: seq<Command>, c: Command)
    requires Normal(log)
    ensures Normal(Absorb(log, c))
  {
    var out := Absorb(log, c);
    assert (log + [c])[..|log|] == log;
    if Keyed(c) && c.kind.value != Update {
      var key := c.compactionKey.value;
      var kinds := if c.kind.value == Create || Mentions(log, key, {Create}) then {Create, Update} else {Update, Delete};
      var kept := Drop(log, key, kinds);
      DropKeepsNormal(log, key, kinds);
      DropMentions(log, key, kinds, key, {Create});
      DropMentions(log, key, kinds, key, kinds);
      assert (kept + [c])[..|kept|] == kept;
    }
  }

  lemma {:induction false} AbsorbAllKeepsNormal(log: seq<Command>, batch: seq<Command>)
    requires Normal(log)
    ensures Normal(AbsorbAll(log, batch))
  {
    if batch != [] {
      AbsorbAllKeepsNormal(log, batch[..|batch| - 1]);
      AbsorbKeepsNormal(AbsorbAll(log, batch[..|batch| - 1]), batch[|batch| - 1]);
    }
  }

  lemma {:induction false} NormalIsFixed(log: seq<Command>)
    requires Normal(log)
    ensures Compacted(log) == log
  {
    if log != [] {
      var init, last := log[..|log| - 1], log[|log| - 1];
      NormalIsFixed(init);
      if Keyed(last) {
        var key := last.compactionKey.value;
        if last.kind.value == Create {
          DropOfUnmentioned(init, key, {Create, Update});
        } else if last.kind.value == Delete {
          assert !Mentions(init, key, {Create}) && !Mentions(init, key, {Update, Delete});
          DropOfUnmentioned(init, key, {Update, Delete});
        }
      }
      assert log == init + [last];
    }
  }

  // ---------------------------------------------------------------------------------------
  // Incremental and idempotent
  // ---------------------------------------------------------------------------------------

  lemma {:induction false} AbsorbAllConcat(log: seq<Command>, a: seq<Command>, b: seq<Command>)
    ensures AbsorbAll(log, a + b) == AbsorbAll(AbsorbAll(log, a), b)
  {
    if b == [] {
      assert a + b == a;
    } else {
      assert (a + b)[..|a + b| - 1] == a + b[..|b| - 1];
      AbsorbAllConcat(log, a, b[..|b| - 1]);
    }
  }

  lemma CompactionIsIdempotent(log: seq<Command>)
    ensures Compacted(Compacted(log)) == Compacted(log)
  {
    AbsorbAllKeepsNormal([], log);
    NormalIsFixed(Compacted(log));
  }

  /** Storing only the compacted log after each append loses nothing compaction could later see. */
  lemma CompactionIsIncremental(a: seq<Command>, b: seq<Command>)
    ensures Compacted(Compacted(a) + b) == Compacted(a + b)
  {
    AbsorbAllConcat([], Compacted(a), b);
    AbsorbAllConcat([], a, b);
    CompactionIsIdempotent(a);
  }

  // ---------------------------------------------------------------------------------------
  // Order and unkeyed commands
  // ---------------------------------------------------------------------------------------

  ghost predicate Subsequence(a: seq<Command>, b: seq<Command>) {
    a == [] || (b != [] && ((a[|a| - 1] == b[|b| - 1] && Subsequence(a[..|a| - 1], b[..|b| - 1]))
                         || Subsequence(a, b[..|b| - 1])))
  }

  lemma {:induction false} SubsequenceIsTransitive(a: seq<Command>, b: seq<Command>, c: seq<Command>)
    requires Subsequence(a, b) && Subsequence(b, c)
    ensures Subsequence(a, c)
  {
    if a != [] {
      if b[|b| - 1] == c[|c| - 1] && Subsequence(b[..|b| - 1], c[..|c| - 1]) {
        if a[|a| - 1] == b[|b| - 1] && Subsequence(a[..|a| - 1], b[..|b| - 1]) {
          SubsequenceIsTransitive(a[..|a| - 1], b[..|b| - 1], c[..|c| - 1]);
        } else {
          SubsequenceIsTransitive(a, b[..|b| - 1], c[..|c| - 1]);
        }
      } else {
        SubsequenceIsTransitive(a, b, c[..|c| - 1]);
      }
    }
  }

  lemma {:induction false} SubsequenceOfItself(a: seq<Command>)
    ensures Subsequence(a, a)
  {
    if a != [] {
      SubsequenceOfItself(a[..|a| - 1]);
    }
  }

  lemma {:induction false} DropIsSubsequence(log: seq<Command>, key: string, kinds: set<Kind>)
    ensures Subsequence(Drop(log, key, kinds), log)
  {
    if log != [] {
      var rest := Drop(log[..|log| - 1], key, kinds);
      DropIsSubsequence(log[..|log| - 1], key, kinds);
      assert (rest + [log[|log| - 1]])[..|rest|] == rest;
    }
  }

  lemma SubsequenceAppend(a: seq<Command>, b: seq<Command>, c: Command)
    requires Subsequence(a, b)
    ensures Subsequence(a + [c], b + [c]) && Subsequence(a, b + [c])
  {
    assert (a + [c])[..|a|] == a && (b + [c])[..|b|] == b;
  }

  function Unkeyed(log: seq<Command>): seq<Command> {
    if log == [] then []
    else Unkeyed(log[..|log| - 1]) + (if Keyed(log[|log| - 1]) then [] else [log[|log| - 1]])
  }

  lemma {:induction false} DropKeepsUnkeyed(log: seq<Command>, key: string, kinds: set<Kind>)
    ensures Unkeyed(Drop(log, key, kinds)) == Unkeyed(log)
  {
    if log != [] {
      var rest := Drop(log[..|log| - 1], key, kinds);
      DropKeepsUnkeyed(log[..|log| - 1], key, kinds);
      assert (rest + [log[|log| - 1]])[..|rest|] == rest;
    }
  }

  lemma AbsorbKeepsOrderAndUnkeyed(log: seq<Command>, c: Command)
    ensures Subsequence(Absorb(log, c), log + [c])
    ensures Unkeyed(Absorb(log, c)) == Unkeyed(log + [c])
  {
    SubsequenceOfItself(log + [c]);
    assert (log + [c])[..|log|] == log;
    if Keyed(c) && c.kind.value != Update {
      var key := c.compactionKey.value;
      var kinds := if c.kind.value == Create || Mentions(log, key, {Create}) then {Create, Update} else {Update, Delete};
      var kept := Drop(log, key, kinds);
      DropIsSubsequence(log, key, kinds);
      DropKeepsUnkeyed(log, key, kinds);
      SubsequenceAppend(kept, log, c);
      assert (kept + [c])[..|kept|] == kept;
      assert Absorb(log, c) == kept || Absorb(log, c) == kept + [c];
    }
  }

  lemma {:induction false} CompactionKeepsOrderAndUnkeyed(log: seq<Command>)
    ensures Subsequence(Compacted(log), log)
    ensures Unkeyed(Compacted(log)) == Unkeyed(log)
  {
    if log != [] {
      var init, c := log[..|log| - 1], log[|log| - 1];
      var before := Compacted(init);
      CompactionKeepsOrderAndUnkeyed(init);
      AbsorbKeepsOrderAndUnkeyed(before, c);
      assert log == init + [c];
      SubsequenceAppend(before, init, c);
      SubsequenceIsTransitive(Absorb(before, c), before + [c], log);
      assert (before + [c])[..|before|] == before;
    }
  }

  // ---------------------------------------------------------------------------------------
  // Meaning
  // ---------------------------------------------------------------------------------------

  /** Application handlers: a keyed command acts on its own cell, any other on the rest of the world. */
  datatype Handlers<!V, !R> = Handlers(
    create: Command -> V,
    update: (Command, V) -> V,
    other: (Command, R) -> R)

  datatype World<V, R> = World(cells: map<string, V>, rest: R)

  function Step<V, R>(h: Handlers<V, R>, w: World<V, R>, c: Command): World<V, R> {
    if !Keyed(c) then w.(rest := h.other(c, w.rest))
    else
      var key := c.compactionKey.value;
      match c.kind.value
      case Create => w.(cells := w.cells[key := h.create(c)])
      case Update => if key in w.cells then w.(cells := w.cells[key := h.update(c, w.cells[key])]) else w
      case Delete => w.(cells := w.cells - {key})
  }

  /** Create needs an absent cell; update and delete need a present one. */
  predicate Applies<V, R>(w: World<V, R>, c: Command) {
    Keyed(c) ==> (c.kind.value == Create <==> c.compactionKey.value !in w.cells)
  }

  function Run<V, R>(h: Handlers<V, R>, w: World<V, R>, log: seq<Command>): World<V, R> {
    if log == [] then w else Step(h, Run(h, w, log[..|log| - 1]), log[|log| - 1])
  }

  ghost predicate Valid<V, R>(h: Handlers<V, R>, w: World<V, R>, log: seq<Command>) {
    log == [] || (Valid(h, w, log[..|log| - 1]) && Applies(Run(h, w, log[..|log| - 1]), log[|log| - 1]))
  }

  /** What a valid normal log says about one cell, read off the kinds it mentions. */
  lemma {:induction false} PresenceAfterNormal<V, R>(h: Handlers<V, R>, w: World<V, R>, log: seq<Command>, key: string)
    requires Normal(log) && Valid(h, w, log)
    ensures Mentions(log, key, {Create}) ==> key in Run(h, w, log).cells
    ensures Mentions(log, key, {Create}) && !Mentions(log, key, {Delete}) ==> key !in w.cells
    ensures !Mentions(log, key, {Create}) && Mentions(log, key, {Delete}) ==> key !in Run(h, w, log).cells
    ensures !Mentions(log, key, {Create}) && !Mentions(log, key, {Delete}) ==>
            (key in Run(h, w, log).cells <==> key in w.cells)
  {
    if log != [] {
      var init, last := log[..|log| - 1], log[|log| - 1];
      PresenceAfterNormal(h, w, init, key);
      assert log == init + [last];
      MentionsAppend(init, last, key, {Create});
      MentionsAppend(init, last, key, {Delete});
    }
  }

  lemma StepFrame<V, R>(h: Handlers<V, R>, a: World<V, R>, b: World<V, R>, c: Command, key: string)
    requires Keyed(c) ==> c.compactionKey.value != key
    requires a.rest == b.rest && a.cells - {key} == b.cells - {key}
    ensures Applies(a, c) <==> Applies(b, c)
    ensures Step(h, a, c).rest == Step(h, b, c).rest
    ensures Step(h, a, c).cells - {key} == Step(h, b, c).cells - {key}
    ensures key in Step(h, b, c).cells <==> key in b.cells
  {
    if Keyed(c) {
      var own := c.compactionKey.value;
      assert own in a.cells <==> own in a.cells - {key};
      assert own in b.cells <==> own in b.cells - {key};
      if own in a.cells {
        assert (a.cells - {key})[own] == a.cells[own] && (b.cells - {key})[own] == b.cells[own];
      }
      var v := if c.kind.value == Create then h.create(c)
               else if own in a.cells then h.update(c, a.cells[own]) else h.create(c);
      assert a.cells[own := v] - {key} == (a.cells - {key})[own := v];
      assert b.cells[own := v] - {key} == (b.cells - {key})[own := v];
      assert a.cells - {own} - {key} == a.cells - {key} - {own};
      assert b.cells - {own} - {key} == b.cells - {key} - {own};
    }
  }

  lemma DropFrameOwn<V, R>(h: Handlers<V, R>, w: World<V, R>, init: seq<Command>, c: Command, key: string)
    requires Settles(init, c) && Valid(h, w, init) && Applies(Run(h, w, init), c)
    requires DropFramed(h, w, init, key)
    requires Keyed(c) && c.compactionKey.value == key
    ensures DropFramed(h, w, init + [c], key)
  {
    hide Settles, Applies, Run, Valid, Mentions, Drop;
    if c.kind.value == Delete {
      DropFrameDelete(h, w, init, c, key);
    } else {
      DropFrameWrite(h, w, init, c, key);
    }
  }

  lemma DropFrameDelete<V, R>(h: Handlers<V, R>, w: World<V, R>, init: seq<Command>, c: Command, key: string)
    requires Settles(init, c) && Valid(h, w, init) && Applies(Run(h, w, init), c)
    requires Keyed(c) && c.compactionKey.value == key && c.kind.value == Delete
    ensures DropFramed(h, w, init + [c], key)
  {
    var log := init + [c];
    assert log[..|init|] == init && log[|init|] == c;
    MentionsAppend(init, c, key, {Delete});
    DropOfUnmentioned(init, key, {Create, Update});
    assert Drop(log, key, {Create, Update}) == log;
    assert key !in Run(h, w, log).cells;
  }

  lemma WriteTouchesItsCell<V, R>(h: Handlers<V, R>, w: World<V, R>, init: seq<Command>, c: Command)
    requires Keyed(c) && c.kind.value != Delete
    ensures Run(h, w, init + [c]).rest == Run(h, w, init).rest
    ensures Run(h, w, init + [c]).cells - {c.compactionKey.value} == Run(h, w, init).cells - {c.compactionKey.value}
  {
    assert (init + [c])[..|init|] == init;
  }

  lemma DropSkips(init: seq<Command>, c: Command, key: string)
    requires Keyed(c) && c.compactionKey.value == key && c.kind.value != Delete
    ensures Drop(init + [c], key, {Create, Update}) == Drop(init, key, {Create, Update})
    ensures Mentions(init + [c], key, {Delete}) <==> Mentions(init, key, {Delete})
  {
    assert (init + [c])[..|init|] == init;
    MentionsAppend(init, c, key, {Delete});
  }

  lemma DropFrameWrite<V, R>(h: Handlers<V, R>, w: World<V, R>, init: seq<Command>, c: Command, key: string)
    requires DropFramed(h, w, init, key)
    requires Keyed(c) && c.compactionKey.value == key && c.kind.value != Delete
    ensures DropFramed(h, w, init + [c], key)
  {
    hide Run, Drop, Mentions, Valid;
    WriteTouchesItsCell(h, w, init, c);
    DropSkips(init, c, key);
  }

  lemma DropFrameOther<V, R>(h: Handlers<V, R>, w: World<V, R>, init: seq<Command>, c: Command, key: string)
    requires Valid(h, w, init) && Applies(Run(h, w, init), c)
    requires DropFramed(h, w, init, key)
    requires Keyed(c) ==> c.compactionKey.value != key
    ensures DropFramed(h, w, init + [c], key)
  {
    var log, rest := init + [c], Drop(init, key, {Create, Update});
    assert log[..|init|] == init && log[|init|] == c;
    MentionsAppend(init, c, key, {Delete});
    assert Drop(log, key, {Create, Update}) == rest + [c] && (rest + [c])[..|rest|] == rest;
    StepFrame(h, Run(h, w, init), Run(h, w, rest), c, key);
  }

  /** Forgetting a key's creates and updates changes that cell only. */
  lemma {:induction false} DropFrame<V, R>(h: Handlers<V, R>, w: World<V, R>, log: seq<Command>, key: string)
    requires Normal(log) && Valid(h, w, log)
    ensures DropFramed(h, w, log, key)
  {
    if log != [] {
      var init, last := log[..|log| - 1], log[|log| - 1];
      DropFrame(h, w, init, key);
      assert log == init + [last];
      if Keyed(last) && last.compactionKey.value == key {
        DropFrameOwn(h, w, init, last, key);
      } else {
        DropFrameOther(h, w, init, last, key);
      }
    }
  }

  ghost predicate DropFramed<V, R>(h: Handlers<V, R>, w: World<V, R>, log: seq<Command>, key: string) {
    var kept := Drop(log, key, {Create, Update});
    && Valid(h, w, kept)
    && Run(h, w, kept).rest == Run(h, w, log).rest
    && Run(h, w, kept).cells - {key} == Run(h, w, log).cells - {key}
    && (key in Run(h, w, kept).cells <==> key in w.cells && !Mentions(log, key, {Delete}))
  }

  lemma DropKindsAgree(log: seq<Command>, key: string)
    requires !Mentions(log, key, {Create}) && !Mentions(log, key, {Delete})
    ensures Drop(log, key, {Update, Delete}) == Drop(log, key, {Create, Update})
  {
    if log != [] {
      var init, last := log[..|log| - 1], log[|log| - 1];
      assert log == init + [last];
      MentionsAppend(init, last, key, {Create});
      MentionsAppend(init, last, key, {Delete});
      DropKindsAgree(init, key);
    }
  }

  lemma AbsorbPreservesMeaning<V, R>(h: Handlers<V, R>, w: World<V, R>, log: seq<Command>, c: Command)
    requires Normal(log) && Valid(h, w, log) && Applies(Run(h, w, log), c)
    ensures Valid(h, w, Absorb(log, c))
    ensures Run(h, w, Absorb(log, c)) == Step(h, Run(h, w, log), c)
  {
    assert (log + [c])[..|log|] == log;
    if Keyed(c) && c.kind.value != Update {
      var key := c.compactionKey.value;
      var kept := Drop(log, key, {Create, Update});
      assert (kept + [c])[..|kept|] == kept;
      PresenceAfterNormal(h, w, log, key);
      DropFrame(h, w, log, key);
      var a, b := Run(h, w, log), Run(h, w, kept);
      if c.kind.value == Create {
        assert b.cells[key := h.create(c)] == (b.cells - {key})[key := h.create(c)];
        assert a.cells[key := h.create(c)] == (a.cells - {key})[key := h.create(c)];
      } else if Mentions(log, key, {Create}) {
        assert b.cells == b.cells - {key};
      } else {
        DropKindsAgree(log, key);
      }
    }
  }

  /** A valid log and its compaction are interchangeable, from every starting world. */
  lemma {:induction false} CompactionPreservesMeaning<V, R>(h: Handlers<V, R>, w: World<V, R>, log: seq<Command>)
    requires Valid(h, w, log)
    ensures Valid(h, w, Compacted(log))
    ensures Run(h, w, Compacted(log)) == Run(h, w, log)
  {
    if log != [] {
      var init := log[..|log| - 1];
      CompactionPreservesMeaning(h, w, init);
      AbsorbAllKeepsNormal([], init);
      AbsorbPreservesMeaning(h, w, Compacted(init), log[|log| - 1]);
    }
  }

  /** Validity matters: a create that overwrites a present cell must not be cancelled by a delete. */
  lemma OverwritingCreateIsNotPreserved<V, R>(h: Handlers<V, R>, rest: R, v: V, key: string)
    ensures var w := World(map[key := v], rest);
            var log := [Command(None, "put", "", Some(key), Some(Create)), Command(None, "drop", "", Some(key), Some(Delete))];
            && !Valid(h, w, log)
            && key !in Run(h, w, log).cells
            && Compacted(log) == []
            && key in Run(h, w, Compacted(log)).cells
  {
    var w := World(map[key := v], rest);
    var put, drop := Command(None, "put", "", Some(key), Some(Create)), Command(None, "drop", "", Some(key), Some(Delete));
    var log := [put, drop];
    assert log[..1] == [put] && [put][..0] == [];
    assert Run(h, w, [put]) == Step(h, w, put);
    assert Drop([], key, {Create, Update}) == [];
    assert AbsorbAll([], [put]) == Absorb(AbsorbAll([], [put][..0]), put);
    assert Compacted(log) == Absorb(AbsorbAll([], log[..1]), drop);
    assert Names([put][0], key, {Create});
    assert Drop([put], key, {Create, Update}) == [];
  }
}
