/**
 The save of core/src/plugins/EphemeralDataPlugin.ts over mutable collections: maps changed in
 place, an undo array filled while applying and replayed backwards. Each method is proved to
 compute what `Persist` says of the collections' contents.
 */
module PersistPlugin {
  import opened Options
  import opened Persist
  import PersistProofs

  class MemoryDataCollection {
    const keying: Keying
    var data: Data
    var nextId: Option<int>
    var disk: Data

    constructor (keying: Keying)
      ensures this.keying == keying && View() == Table(map[], None, map[])
    {
      this.keying := keying;
      data, nextId, disk := map[], None, map[];
    }

    function View(): Table
      reads this
    {
      Table(data, nextId, disk)
    }

    /** Answers the record as stored, with its id set; `None` is a throw that stored nothing. */
    method Add(item: Item, uuid: string) returns (r: Option<Item>)
      modifies this
      ensures var spec := AddTo(keying, old(View()), item, uuid);
        if spec.None? then r.None? && View() == old(View()) else r == Some(spec.value.1) && View() == spec.value.0
    {
      if keying.identity {
        var (filed, counter) := AssignId(keying, nextId, item, uuid);
        nextId := counter;
        data := data[filed.key.value := filed];
        return Some(filed);
      }
      if item.key.None? {
        return None;
      }
      data := data[item.key.value := item];
      r := Some(item);
    }

    /** Hydrates a stored record around what is already in memory. */
    method AddIfAbsent(item: Item, uuid: string) returns (ok: bool)
      modifies this
      ensures var spec := AddIfAbsentTo(keying, old(View()), item, uuid);
        ok == spec.Some? && View() == if ok then spec.value else old(View())
    {
      var filed := item;
      if keying.identity {
        var (withId, counter) := AssignId(keying, nextId, item, uuid);
        filed, nextId := withId, counter;
      }
      ok := filed.key.Some?;
      if ok && filed.key.value !in data {
        data := data[filed.key.value := filed];
      }
    }

    method Update(item: Item) returns (ok: bool)
      modifies this
      ensures var spec := UpdateIn(old(View()), item); ok == spec.Some? && View() == if ok then spec.value else old(View())
    {
      ok := item.key.Some?;
      if ok {
        data := data[item.key.value := item];
      }
    }

    method Remove(item: Item) returns (ok: bool)
      modifies this
      ensures var spec := RemoveFrom(old(View()), item); ok == spec.Some? && View() == if ok then spec.value else old(View())
    {
      ok := item.key.Some?;
      if ok {
        data := data - {item.key.value};
      }
    }

    method GetByIds(item: Item) returns (r: Option<Item>)
      ensures r == Prior(View(), item)
    {
      r := if item.key.Some? && item.key.value in data then Some(data[item.key.value]) else None;
    }

    method Save(ok: bool)
      modifies this
      ensures View() == if ok then Saved(old(View())) else old(View())
    {
      if ok {
        disk := data;
      }
    }
  }

  predicate Distinct(cols: seq<MemoryDataCollection>) {
    forall i, j | 0 <= i < j < |cols| :: cols[i] != cols[j]
  }

  function Views(cols: seq<MemoryDataCollection>): (r: Store)
    reads cols
    ensures |r| == |cols| && forall i | 0 <= i < |r| :: r[i] == cols[i].View()
  {
    seq(|cols|, i requires 0 <= i < |cols| reads cols => cols[i].View())
  }

  function Keyings(cols: seq<MemoryDataCollection>): (r: seq<Keying>)
    ensures |r| == |cols| && forall i | 0 <= i < |r| :: r[i] == cols[i].keying
  {
    seq(|cols|, i requires 0 <= i < |cols| => cols[i].keying)
  }

  /** One mutation, with the entry its undo needs. */
  method Mutate(cols: seq<MemoryDataCollection>, op: Op) returns (r: Option<Done>)
    requires Distinct(cols) && op.at < |cols|
    modifies cols[op.at]
    ensures var spec := ApplyOp(Keyings(cols), old(Views(cols)), op);
      if spec.Threw? then r.None? && Views(cols) == old(Views(cols)) else r == Some(spec.done) && Views(cols) == spec.store
  {
    var collection := cols[op.at];
    match op {
      case AddOp(i, item, uuid) =>
        var added := collection.Add(item, uuid);
        r := if added.None? then None else Some(Added(i, added.value.key.value, added.value));
      case UpdateOp(i, item) =>
        var prior := collection.GetByIds(item);
        var ok := collection.Update(item);
        r := if ok then Some(Updated(i, item.key.value, item, prior)) else None;
      case RemoveOp(i, item) =>
        var prior := collection.GetByIds(item);
        var ok := collection.Remove(item);
        r := if ok then Some(Removed(i, item.key.value, item, prior)) else None;
    }
  }

  /** `a` with mutations already done in front of its own. */
  function Prepend(done: seq<Done>, a: Applied): Applied {
    a.(done := done + a.done)
  }

  /** Applies a schema's share of the mutations; answers what went through, in order. */
  method ApplyAll(cols: seq<MemoryDataCollection>, ops: seq<Op>) returns (done: seq<Done>, threw: bool)
    requires Distinct(cols) && forall i | 0 <= i < |ops| :: ops[i].at < |cols|
    modifies cols
    ensures Apply(Keyings(cols), old(Views(cols)), ops) == Applied(Views(cols), done, threw)
  {
    done := [];
    ghost var keyings, store := Keyings(cols), Views(cols);
    assert ops[0..] == ops;
    for j := 0 to |ops|
      invariant |Views(cols)| == |store| && OpsOk(Views(cols), ops[j..])
      invariant Apply(keyings, store, ops) == Prepend(done, Apply(keyings, Views(cols), ops[j..]))
    {
      ghost var before := Views(cols);
      assert ops[j..][1..] == ops[j + 1..];
      var entry := Mutate(cols, ops[j]);
      if entry.None? {
        assert Apply(keyings, before, ops[j..]) == Applied(before, [], true);
        assert done + [] == done;
        return done, true;
      }
      ghost var rest := Apply(keyings, Views(cols), ops[j + 1..]);
      assert Apply(keyings, before, ops[j..]) == Prepend([entry.value], rest);
      done := done + [entry.value];
    }
    assert done + [] == done;
    threw := false;
  }

  /** The undo array, replayed backwards. */
  method RevertAll(cols: seq<MemoryDataCollection>, undo: seq<Done>)
    requires Distinct(cols) && Within(|cols|, undo)
    modifies cols
    ensures Views(cols) == Revert(old(Views(cols)), undo)
  {
    ghost var store := Views(cols);
    assert undo[..|undo|] == undo;
    for i := |undo| downto 0
      invariant |Views(cols)| == |store|
      invariant Revert(Views(cols), undo[..i]) == Revert(store, undo)
    {
      var d := undo[i];
      ghost var before := Views(cols);
      var collection := cols[d.at];
      if !d.Added? && d.prior.Some? {
        var _ := collection.Update(d.prior.value);
      } else if !d.Removed? {
        collection.data := collection.data - {d.key};
      }
      assert Views(cols) == UndoOne(before, d);
      assert undo[..i + 1][..i] == undo[..i];
    }
  }

  method FindConflicts(t: MemoryDataCollection, updates: seq<Update>) returns (keys: seq<Key>)
    ensures keys == ConflictKeys(t.View(), updates)
  {
    keys := [];
    for j := 0 to |updates|
      invariant keys == ConflictKeys(t.View(), updates[..j])
    {
      assert updates[..j + 1][..j] == updates[..j];
      var u := updates[j];
      if u.check.None? {
        continue;
      }
      var stored := t.GetByIds(u.entity);
      var column := u.check.value.column;
      if stored.Some? && !(column in stored.value.cells && stored.value.cells[column] == u.check.value.expected) {
        keys := keys + [u.entity.key.value];
      }
    }
    assert updates[..|updates|] == updates;
  }

  /** Every collection is checked before any is touched. */
  method Validate(cols: seq<MemoryDataCollection>, staged: seq<Changes>) returns (r: Option<Conflict>)
    requires |cols| == |staged|
    ensures r == FirstConflict(Views(cols), staged, 0)
  {
    for i := 0 to |staged|
      invariant FirstConflict(Views(cols), staged, i) == FirstConflict(Views(cols), staged, 0)
    {
      var keys := FindConflicts(cols[i], staged[i].updates);
      if keys != [] {
        return Some(Conflict(i, keys));
      }
    }
    r := None;
  }

  /** Saves collection by collection until one fails; `n` is how many went through. */
  method SaveAll(cols: seq<MemoryDataCollection>, saves: seq<bool>) returns (n: nat)
    requires Distinct(cols) && |saves| == |cols|
    modifies cols
    ensures n == FirstFailure(saves, 0)
    ensures Views(cols) == SaveWhere(old(Views(cols)), AllSaved(|cols|), n)
  {
    ghost var store := Views(cols);
    n := 0;
    while n < |cols| && saves[n]
      invariant n <= |cols| && FirstFailure(saves, n) == FirstFailure(saves, 0)
      invariant Views(cols) == SaveWhere(store, AllSaved(|cols|), n)
    {
      cols[n].Save(true);
      n := n + 1;
    }
  }

  /** Writes the reverted records back over the collections already saved. */
  method ResaveAll(cols: seq<MemoryDataCollection>, resaves: seq<bool>, n: nat)
    requires Distinct(cols) && |resaves| == |cols| && n <= |cols|
    modifies cols
    ensures Views(cols) == SaveWhere(old(Views(cols)), resaves, n)
  {
    ghost var store := Views(cols);
    for k := 0 to n
      invariant Views(cols) == SaveWhere(store, resaves, k)
    {
      cols[k].Save(resaves[k]);
    }
  }

  method BulkPersistAll(cols: seq<MemoryDataCollection>, staged: seq<Changes>, uuids: seq<seq<string>>, e: Environment)
    returns (outcome: Outcome, undo: seq<Done>)
    requires Distinct(cols) && |cols| == |staged| && StagedOk(staged, uuids) && EnvironmentOk(e, |staged|)
    modifies cols
    ensures BulkPersist(Keyings(cols), old(Views(cols)), staged, uuids, e) == Persisted(Views(cols), outcome, undo)
  {
    undo := [];
    for i := 0 to |staged|
      invariant forall j | 0 <= j < i :: !NeedsLoad(staged[j]) || e.loads[j]
    {
      if NeedsLoad(staged[i]) && !e.loads[i] {
        return LoadFailed, [];
      }
    }
    var conflict := Validate(cols, staged);
    if conflict.Some? {
      return Conflicted(conflict.value), [];
    }
    var threw := ApplyStaged(cols, staged, uuids);
    outcome, undo := ConcludeAll(cols, threw.0, threw.1, e);
  }

  method ApplySchema(cols: seq<MemoryDataCollection>, staged: seq<Changes>, uuids: seq<seq<string>>, i: nat)
    returns (done: seq<Done>, threw: bool)
    requires Distinct(cols) && |cols| == |staged| && StagedOk(staged, uuids) && i < |staged|
    modifies cols
    ensures Apply(Keyings(cols), old(Views(cols)), AllOps(i, staged, uuids))
         == if threw then Applied(Views(cols), done, true)
            else Prepend(done, Apply(Keyings(cols), Views(cols), AllOps(i + 1, staged, uuids)))
  {
    var mine := OpsOf(i, staged[i], uuids[i]);
    ghost var later := AllOps(i + 1, staged, uuids);
    PersistProofs.ApplyInTwo(Keyings(cols), Views(cols), mine, later);
    assert AllOps(i, staged, uuids) == mine + later;
    done, threw := ApplyAll(cols, mine);
  }

  /** The schemas in order, each its adds, then its updates, then its removes. */
  method ApplyStaged(cols: seq<MemoryDataCollection>, staged: seq<Changes>, uuids: seq<seq<string>>) returns (r: (bool, seq<Done>))
    requires Distinct(cols) && |cols| == |staged| && StagedOk(staged, uuids)
    modifies cols
    ensures Apply(Keyings(cols), old(Views(cols)), AllOps(0, staged, uuids)) == Applied(Views(cols), r.1, r.0)
  {
    var undo: seq<Done> := [];
    ghost var keyings, store := Keyings(cols), Views(cols);
    ghost var whole := Apply(keyings, store, AllOps(0, staged, uuids));
    for i := 0 to |staged|
      invariant |Views(cols)| == |store|
      invariant whole == Prepend(undo, Apply(keyings, Views(cols), AllOps(i, staged, uuids)))
    {
      var done, threw := ApplySchema(cols, staged, uuids, i);
      if threw {
        return (true, undo + done);
      }
      undo := undo + done;
    }
    assert undo + [] == undo;
    r := (false, undo);
  }

  method ConcludeAll(cols: seq<MemoryDataCollection>, threw: bool, undo0: seq<Done>, e: Environment)
    returns (outcome: Outcome, undo: seq<Done>)
    requires Distinct(cols) && EnvironmentOk(e, |cols|) && Within(|cols|, undo0)
    modifies cols
    ensures Conclude(Applied(old(Views(cols)), undo0, threw), e) == Persisted(Views(cols), outcome, undo)
  {
    undo := undo0;
    if threw {
      RevertAll(cols, undo);
      return ApplyFailed, undo;
    }
    var n := SaveAll(cols, e.saves);
    if n == |cols| {
      return Success, undo;
    }
    RevertAll(cols, undo);
    ResaveAll(cols, e.resaves, n);
    outcome := SaveFailed;
  }
}
