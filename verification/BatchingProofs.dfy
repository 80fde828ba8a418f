/**
 What the write queue keeps over every run: it cannot be told apart from writing the accepted
 writes one at a time in arrival order, and every accepted write is answered exactly once.
 */
module BatchingProofs {
  import opened Options
  import opened Batching

  // ----- groups -----

  ghost predicate Disjoint(items: seq<Write>) {
    forall i, j | 0 <= i < j < |items| :: SchemasOf(items[i]) !! SchemasOf(items[j])
  }

  ghost predicate GroupOk(canMerge: bool, g: seq<Write>) {
    g != [] && Disjoint(g) && (!canMerge ==> |g| == 1)
  }

  ghost predicate GroupsOk(canMerge: bool, groups: seq<seq<Write>>) {
    forall i | 0 <= i < |groups| :: GroupOk(canMerge, groups[i])
  }

  function Claimed(items: seq<Write>): set<SchemaId> {
    set i, s | 0 <= i < |items| && s in SchemasOf(items[i]) :: s
  }

  /** A group is closed only by an item that could not join it. */
  ghost predicate Greedy(canMerge: bool, groups: seq<seq<Write>>) {
    forall i | 0 < i < |groups| ::
      groups[i] != [] && (canMerge ==> !(SchemasOf(groups[i][0]) !! Claimed(groups[i - 1])))
  }

  lemma {:induction false} ConcatAppend(a: seq<seq<Write>>, b: seq<seq<Write>>)
    ensures Concat(a + b) == Concat(a) + Concat(b)
    decreases |a|
  {
    if a == [] {
      assert a + b == b;
    } else {
      assert (a + b)[1..] == a[1..] + b;
      ConcatAppend(a[1..], b);
    }
  }

  lemma {:induction false} ConcatOne(g: seq<Write>)
    ensures Concat([g]) == g
  {
    assert [g][1..] == [];
  }

  lemma {:induction false} ConcatJoinsLast(groups: seq<seq<Write>>, item: Write)
    requires groups != []
    ensures Concat(groups[..|groups| - 1] + [groups[|groups| - 1] + [item]]) == Concat(groups) + [item]
  {
    var last := groups[|groups| - 1];
    assert groups == groups[..|groups| - 1] + [last];
    ConcatAppend(groups[..|groups| - 1], [last]);
    ConcatAppend(groups[..|groups| - 1], [last + [item]]);
    ConcatOne(last);
    ConcatOne(last + [item]);
  }

  lemma {:induction false} PrepareFromKeeps(canMerge: bool, groups: seq<seq<Write>>, claimed: set<SchemaId>, batch: seq<Write>)
    requires GroupsOk(canMerge, groups) && Greedy(canMerge, groups)
    requires groups != [] ==> claimed == Claimed(groups[|groups| - 1])
    ensures var r := PrepareFrom(canMerge, groups, claimed, batch);
      GroupsOk(canMerge, r) && Greedy(canMerge, r) && Concat(r) == Concat(groups) + batch
    decreases |batch|
  {
    if batch == [] {
      assert Concat(groups) + batch == Concat(groups);
    } else {
      var item := batch[0];
      if groups == [] || !(SchemasOf(item) !! claimed) || !canMerge {
        StartKeeps(canMerge, groups, item);
        PrepareFromKeeps(canMerge, groups + [[item]], SchemasOf(item), batch[1..]);
      } else {
        var last := groups[|groups| - 1];
        ExtendKeeps(canMerge, groups, item);
        PrepareFromKeeps(canMerge, groups[..|groups| - 1] + [last + [item]], claimed + SchemasOf(item), batch[1..]);
      }
      assert Concat(groups) + [item] + batch[1..] == Concat(groups) + batch;
    }
  }

  /** A write that overlaps the last group, or may join none, opens one of its own. */
  lemma {:induction false} StartKeeps(canMerge: bool, groups: seq<seq<Write>>, item: Write)
    requires GroupsOk(canMerge, groups) && Greedy(canMerge, groups)
    requires groups == [] || !(SchemasOf(item) !! Claimed(groups[|groups| - 1])) || !canMerge
    ensures GroupsOk(canMerge, groups + [[item]]) && Greedy(canMerge, groups + [[item]])
    ensures Claimed([item]) == SchemasOf(item) && Concat(groups + [[item]]) == Concat(groups) + [item]
  {
    ConcatAppend(groups, [[item]]);
    ConcatOne([item]);
    assert Claimed([item]) == SchemasOf(item) by {
      assert [item][0] == item;
    }
  }

  /** A write over schemas of its own joins the last group. */
  lemma {:induction false} ExtendKeeps(canMerge: bool, groups: seq<seq<Write>>, item: Write)
    requires GroupsOk(canMerge, groups) && Greedy(canMerge, groups) && groups != [] && canMerge
    requires SchemasOf(item) !! Claimed(groups[|groups| - 1])
    ensures var last := groups[|groups| - 1];
      var joined := groups[..|groups| - 1] + [last + [item]];
      && GroupsOk(canMerge, joined) && Greedy(canMerge, joined)
      && Claimed(last + [item]) == Claimed(last) + SchemasOf(item)
      && Concat(joined) == Concat(groups) + [item]
  {
    JoinKeeps(groups[|groups| - 1], item);
    ConcatJoinsLast(groups, item);
  }

  lemma {:induction false} JoinKeeps(g: seq<Write>, item: Write)
    requires Disjoint(g) && SchemasOf(item) !! Claimed(g)
    ensures Disjoint(g + [item])
    ensures Claimed(g + [item]) == Claimed(g) + SchemasOf(item)
  {
    var joined := g + [item];
    forall s | s in Claimed(g) + SchemasOf(item)
      ensures s in Claimed(joined)
    {
      if s in SchemasOf(item) {
        assert joined[|g|] == item;
      } else {
        var i :| 0 <= i < |g| && s in SchemasOf(g[i]);
        assert joined[i] == g[i];
      }
    }
    forall i, j | 0 <= i < j < |joined|
      ensures SchemasOf(joined[i]) !! SchemasOf(joined[j])
    {
      if j == |g| {
        assert SchemasOf(g[i]) <= Claimed(g);
      }
    }
  }

  /**
   Preparing a batch keeps every write in arrival order, groups only writes over disjoint
   schemas, and closes a group only for a write that overlaps it.
   */
  lemma {:induction false} PrepareIsOrderedAndDisjoint(canMerge: bool, batch: seq<Write>)
    ensures Concat(Prepare(canMerge, batch)) == batch
    ensures GroupsOk(canMerge, Prepare(canMerge, batch)) && Greedy(canMerge, Prepare(canMerge, batch))
  {
    PrepareFromKeeps(canMerge, [], {}, batch);
    assert Concat([]) + batch == batch;
  }

  // ----- one merged write is its items, one after another -----

  lemma {:induction false} MergedKeys(items: seq<Write>)
    ensures MergedOperation(items).Keys == Claimed(items)
    ensures MergedSchemas(items).Keys == set i, s | 0 <= i < |items| && s in items[i].event.schemas :: s
    decreases |items|
  {
    if items != [] {
      var pre, last := items[..|items| - 1], items[|items| - 1];
      MergedKeys(pre);
      assert items == pre + [last];
      forall s | s in MergedOperation(items).Keys
        ensures s in Claimed(items)
      {
        if s !in SchemasOf(last) {
          var i :| 0 <= i < |pre| && s in SchemasOf(pre[i]);
          assert items[i] == pre[i];
        }
      }
      forall s | s in MergedSchemas(items).Keys
        ensures exists i :: 0 <= i < |items| && s in items[i].event.schemas
      {
        if s in last.event.schemas {
          assert items[|pre|] == last;
        } else {
          var i :| 0 <= i < |pre| && s in pre[i].event.schemas;
          assert items[i] == pre[i];
        }
      }
      forall i, s | 0 <= i < |items| && s in items[i].event.schemas
        ensures s in MergedSchemas(items)
      {
        assert i < |pre| ==> items[i] == pre[i];
      }
    }
  }

  /** Under each schema a merged event holds the entry of the last item that has one; disjoint items have one each. */
  lemma {:induction false} MergedHoldsEachItem(items: seq<Write>, i: nat, s: SchemaId)
    requires i < |items|
    ensures s in items[i].event.operation && (forall j | i < j < |items| :: s !in items[j].event.operation) ==>
      s in MergedOperation(items) && MergedOperation(items)[s] == items[i].event.operation[s]
    ensures s in items[i].event.schemas && (forall j | i < j < |items| :: s !in items[j].event.schemas) ==>
      s in MergedSchemas(items) && MergedSchemas(items)[s] == items[i].event.schemas[s]
    ensures s in items[i].event.operation && Disjoint(items) ==>
      s in MergedOperation(items) && MergedOperation(items)[s] == items[i].event.operation[s]
    decreases |items|
  {
    var pre, last := items[..|items| - 1], items[|items| - 1];
    if i < |pre| {
      MergedHoldsEachItem(pre, i, s);
      assert s in SchemasOf(items[i]) && Disjoint(items) ==> s !in SchemasOf(last);
    }
  }

  /** A schema of one disjoint item is none of the others'. */
  lemma {:induction false} LastIsApart(items: seq<Write>)
    requires items != [] && Disjoint(items)
    ensures SchemasOf(items[|items| - 1]) !! Claimed(items[..|items| - 1])
    ensures Disjoint(items[..|items| - 1])
  {
    var pre := items[..|items| - 1];
    forall s | s in Claimed(pre)
      ensures s !in SchemasOf(items[|items| - 1])
    {
      var i :| 0 <= i < |pre| && s in SchemasOf(pre[i]);
      assert pre[i] == items[i];
    }
  }

  lemma {:induction false} SplitAt(reply: Reply, items: seq<Write>, i: nat)
    requires reply.Stored? || reply.Partial?
    requires i < |items|
    ensures |Split(reply, items)| == |items| && Split(reply, items)[i] == SplitOne(reply, items[i])
    decreases |items|
  {
    if i > 0 { SplitAt(reply, items[1..], i - 1); }
    else if |items| > 1 { SplitAt(reply, items[1..], 0); }
    else { assert items[1..] == []; }
  }

  /** What a schema's write does depends only on that schema's table and changes. */
  lemma {:induction false} EffectsAreLocal(inner: Inner, db: Db, pre: Operation, op: Operation)
    requires pre.Keys !! op.Keys
    ensures forall s | s in op :: EffectOn(inner, db + Tables(inner, db, pre), op, s) == EffectOn(inner, db, pre + op, s)
    ensures forall s | s in pre :: EffectOn(inner, db, pre, s) == EffectOn(inner, db, pre + op, s)
  {
    var db' := db + Tables(inner, db, pre);
    forall s | s in op
      ensures EffectOn(inner, db', op, s) == EffectOn(inner, db, pre + op, s)
    {
      assert s !in pre;
      assert TableOf(db', s) == TableOf(db, s);
    }
  }

  lemma {:induction false} LocalWrite(inner: Inner, db: Db, pre: Operation, op: Operation)
    requires pre.Keys !! op.Keys && !AnyRejected(inner, db, pre + op)
    ensures !AnyRejected(inner, db, pre) && !AnyRejected(inner, db + Tables(inner, db, pre), op)
    ensures db + Tables(inner, db, pre + op) == db + Tables(inner, db, pre) + Tables(inner, db + Tables(inner, db, pre), op)
  {
    EffectsAreLocal(inner, db, pre, op);
    var db' := db + Tables(inner, db, pre);
    forall s | s in pre
      ensures !EffectOn(inner, db, pre, s).Rejected?
    {
      assert s in pre + op;
    }
    forall s | s in op
      ensures !EffectOn(inner, db', op, s).Rejected?
    {
      assert s in pre + op;
    }
    assert Tables(inner, db, pre + op) == Tables(inner, db, pre) + Tables(inner, db', op);
  }

  /**
   A merged write that went through is its items written one after another: same tables, and
   each item's slice of the merged result is what its own write would have answered.
   */
  lemma {:induction false} MergedWriteIsSequential(cfg: Config, inner: Inner, error: ErrorOf,
                                                    db0: Db, before: seq<Write>, items: seq<Write>)
    requires Atomic(cfg, inner, error) && Disjoint(items)
    requires !AnyRejected(inner, OneByOne(cfg, db0, before).db, MergedOperation(items))
    ensures RanAs(inner, OneByOne(cfg, db0, before), OneByOne(cfg, db0, before + items), items)
    decreases |items|
  {
    var db := OneByOne(cfg, db0, before).db;
    if items == [] {
      assert before + items == before;
      assert db + Tables(inner, db, map[]) == db;
    } else {
      var pre, last := items[..|items| - 1], items[|items| - 1];
      PreAndLastGoThrough(inner, db, items);
      MergedWriteIsSequential(cfg, inner, error, db0, before, pre);
      assert OneByOne(cfg, db0, before + pre).db == db + Tables(inner, db, MergedOperation(pre));
      hide RanAs, AnyRejected, Tables, Echoes, MergedOperation, Disjoint;
      OneMoreWrite(cfg, inner, error, db0, before, items);
      OneMoreItem(inner, OneByOne(cfg, db0, before), OneByOne(cfg, db0, before + pre), OneByOne(cfg, db0, before + items), items);
    }
  }

  lemma {:induction false} PreAndLastGoThrough(inner: Inner, db: Db, items: seq<Write>)
    requires items != [] && Disjoint(items) && !AnyRejected(inner, db, MergedOperation(items))
    ensures var pre, op := items[..|items| - 1], items[|items| - 1].event.operation;
      && Disjoint(pre) && !AnyRejected(inner, db, MergedOperation(pre))
      && !AnyRejected(inner, db + Tables(inner, db, MergedOperation(pre)), op)
  {
    var pre, last := items[..|items| - 1], items[|items| - 1];
    LastIsApart(items);
    MergedKeys(pre);
    assert MergedOperation(items) == MergedOperation(pre) + last.event.operation;
    hide AnyRejected, Tables, Disjoint;
    LocalWrite(inner, db, MergedOperation(pre), last.event.operation);
  }

  lemma {:induction false} OneMoreWrite(cfg: Config, inner: Inner, error: ErrorOf, db0: Db, before: seq<Write>, items: seq<Write>)
    requires Atomic(cfg, inner, error) && items != []
    requires !AnyRejected(inner, OneByOne(cfg, db0, before + items[..|items| - 1]).db, items[|items| - 1].event.operation)
    ensures var mid, last := OneByOne(cfg, db0, before + items[..|items| - 1]), items[|items| - 1];
      OneByOne(cfg, db0, before + items) == Ran(mid.db + Tables(inner, mid.db, last.event.operation),
                                                mid.answers + [Answer(last, Stored(Echoes(inner, mid.db, last.event.operation)))])
  {
    assert (before + items)[..|before + items| - 1] == before + items[..|items| - 1];
    hide AnyRejected, Tables, Echoes;
  }

  /** Writing `items` one by one from `was` leaves and answers, in `now`, what their merged write does. */
  ghost predicate RanAs(inner: Inner, was: Ran, now: Ran, items: seq<Write>) {
    && now.db == was.db + Tables(inner, was.db, MergedOperation(items))
    && |now.answers| == |was.answers| + |items|
    && now.answers[..|was.answers|] == was.answers
    && forall i | 0 <= i < |items| ::
         Filled(now.answers[|was.answers| + i]) == SplitOne(Stored(Echoes(inner, was.db, MergedOperation(items))), items[i])
  }

  lemma {:induction false} OneMoreItem(inner: Inner, was: Ran, mid: Ran, now: Ran, items: seq<Write>)
    requires Disjoint(items) && items != []
    requires !AnyRejected(inner, was.db, MergedOperation(items))
    requires RanAs(inner, was, mid, items[..|items| - 1])
    requires var last := items[|items| - 1];
      now == Ran(mid.db + Tables(inner, mid.db, last.event.operation),
                 mid.answers + [Answer(last, Stored(Echoes(inner, mid.db, last.event.operation)))])
    ensures RanAs(inner, was, now, items)
  {
    var db := was.db;
    var pre, last := items[..|items| - 1], items[|items| - 1];
    var merged, op := MergedOperation(pre), last.event.operation;
    LastIsApart(items);
    MergedKeys(pre);
    assert MergedOperation(items) == merged + op;
    LocalWrite(inner, db, merged, op);
    forall i | 0 <= i < |items|
      ensures Filled(now.answers[|was.answers| + i]) == SplitOne(Stored(Echoes(inner, db, merged + op)), items[i])
    {
      if i < |pre| {
        assert pre[i] == items[i];
        assert SchemasOf(pre[i]) <= Claimed(pre);
        SliceIgnoresOthers(inner, db, merged, op, items[i].event.operation);
      } else {
        LastSlice(inner, db, merged, op);
      }
    }
  }

  /** An earlier item's slice does not change when a disjoint item is merged behind it. */
  lemma {:induction false} SliceIgnoresOthers(inner: Inner, db: Db, merged: Operation, op: Operation, mine: Operation)
    requires mine.Keys <= merged.Keys && op.Keys !! merged.Keys
    ensures DataOf(Echoes(inner, db, merged + op), mine) == DataOf(Echoes(inner, db, merged), mine)
  {
    EffectsAreLocal(inner, db, merged, op);
    var a, b := Echoes(inner, db, merged + op), Echoes(inner, db, merged);
    forall s | s in mine
      ensures (s in a <==> s in b) && (s in a ==> a[s] == b[s])
    {
      assert s in merged && s !in op;
    }
  }

  /** The last item's slice is what its own write echoes on the tables the others left. */
  lemma {:induction false} LastSlice(inner: Inner, db: Db, merged: Operation, op: Operation)
    requires op.Keys !! merged.Keys
    ensures DataOf(Echoes(inner, db, merged + op), op)
         == DataOf(Echoes(inner, db + Tables(inner, db, merged), op), op)
  {
    EffectsAreLocal(inner, db, merged, op);
  }
}
