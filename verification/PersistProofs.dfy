/** All or nothing: what a save leaves, and exactly when a failed one leaves nothing. */
module PersistProofs {
  import opened Options
  import opened Persist

  /** Every record is filed under its own key. */
  predicate Filed(t: Table) { forall k | k in t.data :: t.data[k].key == Some(k) }

  predicate AllFiled(store: Store) { forall i | 0 <= i < |store| :: Filed(store[i]) }

  /** A place a record can be: a collection and a key. */
  type Slot = (nat, Key)

  /** The records, collection by collection. */
  function DataOf(store: Store): (r: seq<Data>)
    ensures |r| == |store| && forall i | 0 <= i < |r| :: r[i] == store[i].data
  {
    seq(|store|, i requires 0 <= i < |store| => store[i].data)
  }

  function Without(data: seq<Data>, slots: set<Slot>): (r: seq<Data>)
    ensures |r| == |data|
  {
    seq(|data|, i requires 0 <= i < |data| => map k | k in data[i] && (i, k) !in slots :: data[i][k])
  }

  predicate Stored(store: Store, slot: Slot) { slot.0 < |store| && slot.1 in store[slot.0].data }

  function SlotOf(d: Done): Slot { (d.at, d.key) }

  /**
   The slots a revert empties for good: those whose first logged mutation was an add over a
   record that was there, since the undo of an add is a plain remove.
   */
  function Lost(store: Store, done: seq<Done>): set<Slot>
    decreases |done|
  {
    if done == [] then {} else Peel(store, done[0], Lost(StepBy(store, done[0]), done[1..]))
  }

  /** The slots lost by undoing `d` after the slots `lost` behind it. */
  function Peel(store: Store, d: Done, lost: set<Slot>): set<Slot> {
    if d.Added? then (if Stored(store, SlotOf(d)) then {SlotOf(d)} else {}) + (lost - {SlotOf(d)})
    else if d.Removed? && d.prior.None? then lost
    else lost - {SlotOf(d)}
  }

  /** The records after one logged mutation. */
  function StepBy(store: Store, d: Done): (r: Store)
    ensures |r| == |store|
  {
    if d.at >= |store| then store
    else
      var t := store[d.at];
      if d.Removed? then store[d.at := t.(data := t.data - {d.key})]
      else store[d.at := t.(data := t.data[d.key := d.item])]
  }

  /** The log of a run of mutations on `store`: priors are what was there, records carry their key. */
  predicate LogOf(store: Store, done: seq<Done>)
    decreases |done|
  {
    done == [] ||
    (var d := done[0];
     && d.at < |store|
     && (!d.Removed? ==> d.item.key == Some(d.key))
     && (!d.Added? ==> d.prior == if Stored(store, SlotOf(d)) then Some(store[d.at].data[d.key]) else None)
     && LogOf(StepBy(store, d), done[1..]))
  }

  lemma {:induction false} LogOfAt(store: Store, done: seq<Done>)
    requires LogOf(store, done)
    ensures Within(|store|, done)
    decreases |done|
  {
    if done != [] {
      LogOfAt(StepBy(store, done[0]), done[1..]);
      forall i | 0 <= i < |done| ensures done[i].at < |store| {
        if i > 0 { assert done[1..][i - 1] == done[i]; }
      }
    }
  }

  function After(store: Store, done: seq<Done>): Store
    decreases |done|
  {
    if done == [] then store else After(StepBy(store, done[0]), done[1..])
  }

  lemma {:induction false} ApplyKeepsLog(keyings: seq<Keying>, store: Store, ops: seq<Op>)
    requires |keyings| == |store| && OpsOk(store, ops)
    ensures var r := Apply(keyings, store, ops);
      && LogOf(store, r.done)
      && DataOf(r.store) == DataOf(After(store, r.done))
      && forall i | 0 <= i < |store| :: r.store[i].disk == store[i].disk
    decreases |ops|
  {
    if ops != [] && ApplyOp(keyings, store, ops[0]).Stepped? {
      var step := ApplyOp(keyings, store, ops[0]);
      ApplyKeepsLog(keyings, step.store, ops[1..]);
      var rest := Apply(keyings, step.store, ops[1..]);
      SameDataSameLog(step.store, StepBy(store, step.done), rest.done);
      var all := Apply(keyings, store, ops);
      assert all.done == [step.done] + rest.done && all.done[1..] == rest.done;
      assert all.store == rest.store;
    }
  }

  /** The log and what it leads to depend only on the records. */
  lemma {:induction false} SameDataSameLog(a: Store, b: Store, done: seq<Done>)
    requires |a| == |b| && DataOf(a) == DataOf(b)
    ensures LogOf(a, done) ==> LogOf(b, done)
    ensures DataOf(After(a, done)) == DataOf(After(b, done))
    decreases |done|
  {
    assert forall i | 0 <= i < |a| :: DataOf(a)[i] == DataOf(b)[i];
    if done != [] {
      var x, y := StepBy(a, done[0]), StepBy(b, done[0]);
      forall i | 0 <= i < |x| ensures x[i].data == y[i].data {}
      assert DataOf(x) == DataOf(y);
      SameDataSameLog(x, y, done[1..]);
    }
  }

  lemma {:induction false} RevertPeelsFirst(store: Store, done: seq<Done>)
    requires done != [] && Within(|store|, done)
    ensures Within(|store|, done[1..])
    ensures Revert(store, done) == UndoOne(Revert(store, done[1..]), done[0])
    decreases |done|
  {
    hide UndoOne;
    assert forall i | 0 <= i < |done[1..]| :: done[1..][i] == done[i + 1];
    var last := done[|done| - 1];
    if |done| == 1 {
      assert done[1..] == [] && done[..0] == [];
    } else {
      var undone := UndoOne(store, last);
      RevertPeelsFirst(undone, done[..|done| - 1]);
      assert done[..|done| - 1][1..] == done[1..][..|done| - 2];
      assert done[1..][|done| - 2] == last;
    }
  }

  /** Reverting gives the records back, save exactly the lost slots. */
  lemma {:induction false} RevertRestores(store: Store, now: Store, done: seq<Done>)
    requires AllFiled(store) && LogOf(store, done)
    requires |now| == |store| && DataOf(now) == DataOf(After(store, done))
    requires Within(|now|, done)
    ensures DataOf(Revert(now, done)) == Without(DataOf(store), Lost(store, done))
    decreases |done|
  {
    if done == [] {
      assert forall i | 0 <= i < |store| :: Without(DataOf(store), {})[i] == store[i].data;
    } else {
      var d := done[0];
      var next := StepBy(store, d);
      assert AllFiled(next) && LogOf(next, done[1..]) && [d][1..] == [] && LogOf(store, [d]);
      assert After(store, done) == After(next, done[1..]) && Lost(store, done) == Peel(store, d, Lost(next, done[1..]));
      hide AllFiled, LogOf, After, StepBy, Lost, Peel, UndoOne, Without;
      RevertPeelsFirst(now, done);
      RevertRestores(next, now, done[1..]);
      UndoFirst(store, Revert(now, done[1..]), d, Lost(next, done[1..]));
    }
  }

  /** What is left of one collection's records without some slots. */
  function Rest(data: Data, i: nat, slots: set<Slot>): Data { map k | k in data && (i, k) !in slots :: data[k] }

  /** Undoing the first mutation, once everything after it is undone up to `lost`. */
  lemma {:induction false} UndoFirst(store: Store, later: Store, d: Done, lost: set<Slot>)
    requires AllFiled(store) && LogOf(store, [d]) && |later| == |store|
    requires DataOf(later) == Without(DataOf(StepBy(store, d)), lost)
    ensures DataOf(UndoOne(later, d)) == Without(DataOf(store), Peel(store, d, lost))
  {
    var undone := UndoOne(later, d);
    var target := Peel(store, d, lost);
    var next := StepBy(store, d);
    var t := store[d.at];
    assert !d.Added? ==> d.prior == if d.key in t.data then Some(t.data[d.key]) else None;
    assert !d.Added? && d.prior.Some? ==> Filed(t) && d.prior.value.key == Some(d.key);
    forall i | 0 <= i < |store|
      ensures undone[i].data == Rest(store[i].data, i, target)
    {
      assert later[i].data == DataOf(later)[i] == Rest(next[i].data, i, lost);
      if i == d.at {
        UndoHere(store, d, lost, later[i]);
      } else {
        assert undone[i] == later[i] && next[i] == store[i];
      }
    }
    forall i | 0 <= i < |store|
      ensures Without(DataOf(store), target)[i] == Rest(store[i].data, i, target)
    {
    }
    hide Rest, Without, Peel, UndoOne, LogOf;
  }

  lemma {:induction false} UndoHere(store: Store, d: Done, lost: set<Slot>, later: Table)
    requires d.at < |store| && later.data == Rest(StepBy(store, d)[d.at].data, d.at, lost)
    requires !d.Added? ==> d.prior == if d.key in store[d.at].data then Some(store[d.at].data[d.key]) else None
    requires !d.Added? && d.prior.Some? ==> d.prior.value.key == Some(d.key)
    ensures var undone := if d.Added? || (d.Updated? && d.prior.None?) then later.data - {d.key}
                          else if d.prior.Some? then later.data[d.key := d.prior.value] else later.data;
      undone == Rest(store[d.at].data, d.at, Peel(store, d, lost))
  {
    assert Stored(store, SlotOf(d)) <==> d.key in store[d.at].data;
  }

  // ----- all or nothing -----

  /** No applied add used a key that was stored before the save. */
  predicate AddsAreNew(store: Store, done: seq<Done>) {
    forall i | 0 <= i < |done| && done[i].Added? :: !Stored(store, SlotOf(done[i]))
  }

  /** Within a collection the adds come first, as `OpsOf` stages them. */
  predicate AddsFirst(done: seq<Done>) {
    forall i, j | 0 <= i < j < |done| && done[j].Added? && done[i].at == done[j].at :: done[i].Added?
  }

  /** A slot is lost only through an add, and only if it was stored; with adds first, through any such add. */
  lemma {:induction false} LostSlots(store: Store, done: seq<Done>, slot: Slot)
    requires LogOf(store, done) && AddsFirst(done)
    ensures slot in Lost(store, done) <==>
      Stored(store, slot) && exists i :: 0 <= i < |done| && done[i].Added? && SlotOf(done[i]) == slot
    decreases |done|
  {
    if done != [] {
      var d, rest := done[0], done[1..];
      var next := StepBy(store, d);
      assert forall i | 0 <= i < |rest| :: rest[i] == done[i + 1];
      assert AddsFirst(rest);
      LostSlots(next, rest, slot);
      if exists i :: 0 <= i < |rest| && rest[i].Added? && SlotOf(rest[i]) == slot {
        var i :| 0 <= i < |rest| && rest[i].Added? && SlotOf(rest[i]) == slot;
        assert done[i + 1].Added?;
      }
      if exists i :: 0 <= i < |done| && done[i].Added? && SlotOf(done[i]) == slot {
        var i :| 0 <= i < |done| && done[i].Added? && SlotOf(done[i]) == slot;
        if i > 0 {
          assert rest[i - 1] == done[i];
          assert !d.Added? ==> d.at != slot.0;
        }
      }
    }
  }

  /** A revert gives every record back exactly when no applied add used a stored key. */
  lemma {:induction false} RevertIsExactIffAddsAreNew(store: Store, now: Store, done: seq<Done>)
    requires AllFiled(store) && LogOf(store, done) && AddsFirst(done)
    requires |now| == |store| && DataOf(now) == DataOf(After(store, done))
    requires Within(|now|, done)
    ensures DataOf(Revert(now, done)) == DataOf(store) <==> AddsAreNew(store, done)
  {
    RevertRestores(store, now, done);
    var lost := Lost(store, done);
    var back := Without(DataOf(store), lost);
    if AddsAreNew(store, done) {
      forall slot | slot in lost ensures false { LostSlots(store, done, slot); }
      forall i | 0 <= i < |store| ensures back[i] == store[i].data {}
    } else {
      var i :| 0 <= i < |done| && done[i].Added? && Stored(store, SlotOf(done[i]));
      var slot := SlotOf(done[i]);
      LostSlots(store, done, slot);
      assert slot.1 !in back[slot.0] && slot.1 in DataOf(store)[slot.0];
    }
  }

  /** `AddsFirst`, for mutations not yet applied. */
  predicate OpsAddFirst(ops: seq<Op>) {
    forall i, j | 0 <= i < j < |ops| && ops[j].AddOp? && ops[i].at == ops[j].at :: ops[i].AddOp?
  }

  lemma {:induction false} ApplyDoesAddsFirst(keyings: seq<Keying>, store: Store, ops: seq<Op>)
    requires |keyings| == |store| && OpsOk(store, ops)
    requires OpsAddFirst(ops)
    ensures AddsFirst(Apply(keyings, store, ops).done)
    ensures var done := Apply(keyings, store, ops).done;
      |done| <= |ops| && forall i | 0 <= i < |done| :: done[i].at == ops[i].at && (done[i].Added? <==> ops[i].AddOp?)
    decreases |ops|
  {
    if ops != [] && ApplyOp(keyings, store, ops[0]).Stepped? {
      var step := ApplyOp(keyings, store, ops[0]);
      assert forall i | 0 <= i < |ops[1..]| :: ops[1..][i] == ops[i + 1];
      ApplyDoesAddsFirst(keyings, step.store, ops[1..]);
      var rest := Apply(keyings, step.store, ops[1..]).done;
      var done := Apply(keyings, store, ops).done;
      assert done == [step.done] + rest;
      forall i | 0 <= i < |done| ensures done[i].at == ops[i].at && (done[i].Added? <==> ops[i].AddOp?) {
        if i > 0 { assert done[i] == rest[i - 1] && ops[1..][i - 1] == ops[i]; }
      }
    }
  }

  lemma {:induction false} OpsOfPutAddsFirst(at: nat, changes: Changes, uuids: seq<string>, i: nat, j: nat)
    requires |uuids| == |changes.adds| && i < j < |OpsOf(at, changes, uuids)| && OpsOf(at, changes, uuids)[j].AddOp?
    ensures OpsOf(at, changes, uuids)[i].AddOp?
  {
    assert j < |changes.adds|;
  }

  lemma {:induction false} AllOpsPutAddsFirst(at: nat, staged: seq<Changes>, uuids: seq<seq<string>>)
    requires StagedOk(staged, uuids) && at <= |staged|
    ensures OpsAddFirst(AllOps(at, staged, uuids))
    decreases |staged| - at
  {
    if at < |staged| {
      AllOpsPutAddsFirst(at + 1, staged, uuids);
      var mine, rest := OpsOf(at, staged[at], uuids[at]), AllOps(at + 1, staged, uuids);
      var ops := AllOps(at, staged, uuids);
      var n := |mine|;
      assert ops == mine + rest;
      forall i, j | 0 <= i < j < |ops| && ops[j].AddOp? && ops[i].at == ops[j].at
        ensures ops[i].AddOp?
      {
        if n <= i {
          assert ops[i] == rest[i - n] && ops[j] == rest[j - n];
        } else if j < n {
          OpsOfPutAddsFirst(at, staged[at], uuids[at], i, j);
        }
      }
    }
  }

  lemma {:induction false} FailedConclusion(store: Store, applied: Applied, e: Environment)
    requires EnvironmentOk(e, |applied.store|) && |applied.store| == |store|
    requires Within(|applied.store|, applied.done)
    requires AllFiled(store) && LogOf(store, applied.done) && AddsFirst(applied.done)
    requires DataOf(applied.store) == DataOf(After(store, applied.done))
    requires applied.threw || FirstFailure(e.saves, 0) < |store|
    ensures DataOf(Conclude(applied, e).store) == DataOf(store) <==> AddsAreNew(store, applied.done)
  {
    if applied.threw {
      RevertIsExactIffAddsAreNew(store, applied.store, applied.done);
    } else {
      var n := FirstFailure(e.saves, 0);
      var saved := SaveWhere(applied.store, AllSaved(|store|), n);
      forall i | 0 <= i < |store| ensures DataOf(saved)[i] == DataOf(applied.store)[i] {}
      assert DataOf(saved) == DataOf(applied.store);
      RevertIsExactIffAddsAreNew(store, saved, applied.done);
      var back := Revert(saved, applied.done);
      var resaved := SaveWhere(back, e.resaves, n);
      forall i | 0 <= i < |store| ensures DataOf(resaved)[i] == DataOf(back)[i] {}
      assert DataOf(resaved) == DataOf(back);
    }
  }

  // ----- which keys the adds will use, before the save -----

  /** The keys a list of adds will be filed under, up to the first that throws; a generated number is the counter's next. */
  function AddKeys(keying: Keying, nextId: Option<int>, adds: seq<Item>, uuids: seq<string>): seq<Key>
    requires |uuids| == |adds|
    decreases |adds|
  {
    if adds == [] || (!keying.identity && adds[0].key.None?) then []
    else
      var next := if keying.identity then AssignId(keying, nextId, adds[0], uuids[0]) else (adds[0], nextId);
      [next.0.key.value] + AddKeys(keying, next.1, adds[1..], uuids[1..])
  }

  /** Every mutation of one schema goes through. */
  predicate AllKeyed(keying: Keying, c: Changes) {
    && (!keying.identity ==> !SomeUnkeyed(c.adds))
    && (forall i | 0 <= i < |c.updates| :: c.updates[i].entity.key.Some?)
    && (forall i | 0 <= i < |c.removes| :: c.removes[i].key.Some?)
  }

  predicate NewTo(t: Table, keys: seq<Key>) { forall i | 0 <= i < |keys| :: keys[i] !in t.data }

  /**
   From schema `at` on, up to the first mutation that will throw, no add will be filed under a
   key that is stored now.
   */
  predicate AddsWillBeNew(keyings: seq<Keying>, store: Store, staged: seq<Changes>, uuids: seq<seq<string>>, at: nat)
    requires |keyings| == |store| == |staged| && StagedOk(staged, uuids) && at <= |staged|
    decreases |staged| - at
  {
    at == |staged| ||
    (&& NewTo(store[at], AddKeys(keyings[at], store[at].nextId, staged[at].adds, uuids[at]))
     && (AllKeyed(keyings[at], staged[at]) ==> AddsWillBeNew(keyings, store, staged, uuids, at + 1)))
  }

  lemma {:induction false} ApplyInTwo(keyings: seq<Keying>, store: Store, a: seq<Op>, b: seq<Op>)
    requires |keyings| == |store| && OpsOk(store, a) && OpsOk(store, b)
    ensures OpsOk(store, a + b)
    ensures var first, all := Apply(keyings, store, a), Apply(keyings, store, a + b);
      if first.threw then all == first
      else
        var rest := Apply(keyings, first.store, b);
        all == Applied(rest.store, first.done + rest.done, rest.threw)
    decreases |a|
  {
    if a == [] {
      assert a + b == b;
      assert [] + Apply(keyings, store, b).done == Apply(keyings, store, b).done;
    } else {
      assert (a + b)[0] == a[0] && (a + b)[1..] == a[1..] + b;
      var step := ApplyOp(keyings, store, a[0]);
      if step.Stepped? {
        ApplyInTwo(keyings, step.store, a[1..], b);
      }
    }
  }

  predicate SomeUnkeyed(items: seq<Item>) { exists i | 0 <= i < |items| :: items[i].key.None? }

  /** Which keys a run of adds of one collection uses, and whether it throws. */
  lemma {:induction false} AddsUseTheirKeys(keyings: seq<Keying>, store: Store, at: nat, adds: seq<Item>, uuids: seq<string>)
    requires |keyings| == |store| && at < |store| && |uuids| == |adds|
    ensures var r := Apply(keyings, store, AddOps(at, adds, uuids));
      var keys := AddKeys(keyings[at], store[at].nextId, adds, uuids);
      && |r.done| == |keys| && (forall i | 0 <= i < |keys| :: r.done[i].Added? && r.done[i].at == at && r.done[i].key == keys[i])
      && (r.threw <==> !keyings[at].identity && SomeUnkeyed(adds))
      && (forall i | 0 <= i < |store| && i != at :: r.store[i] == store[i])
    decreases |adds|
  {
    var ops := AddOps(at, adds, uuids);
    if adds != [] {
      AddStepIs(keyings, store, at, adds[0], uuids[0]);
      var step := ApplyOp(keyings, store, ops[0]);
      if step.Stepped? {
        assert ops[1..] == AddOps(at, adds[1..], uuids[1..]);
        AddsUseTheirKeys(keyings, step.store, at, adds[1..], uuids[1..]);
        hide ApplyOp, AssignId, SomeUnkeyed;
        assert Apply(keyings, store, ops).done == [step.done] + Apply(keyings, step.store, ops[1..]).done;
        hide Apply;
        UnkeyedInRest(adds);
      } else {
        hide ApplyOp, AssignId;
      }
    }
  }

  lemma {:induction false} UnkeyedInRest(adds: seq<Item>)
    requires adds != []
    ensures SomeUnkeyed(adds) <==> adds[0].key.None? || SomeUnkeyed(adds[1..])
  {
    assert adds == [adds[0]] + adds[1..];
  }

  /** One add: it throws without a key nobody assigns, else is logged under its key, and only its collection changes. */
  lemma {:induction false} AddStepIs(keyings: seq<Keying>, store: Store, at: nat, item: Item, uuid: string)
    requires |keyings| == |store| && at < |store|
    ensures var step, keying := ApplyOp(keyings, store, AddOp(at, item, uuid)), keyings[at];
      && (step.Threw? <==> !keying.identity && item.key.None?)
      && (step.Stepped? ==>
        var next := if keying.identity then AssignId(keying, store[at].nextId, item, uuid) else (item, store[at].nextId);
        && step.done.Added? && step.done.at == at && next.0.key.Some? && step.done.key == next.0.key.value
        && step.store[at].nextId == next.1
        && forall i | 0 <= i < |store| && i != at :: step.store[i] == store[i])
  {
  }

  predicate HaveKeys(ops: seq<Op>) { forall i | 0 <= i < |ops| :: ops[i].item.key.Some? }

  /** Updates and removes of one collection add nothing, and throw only on a missing key. */
  lemma {:induction false} OthersAddNothing(keyings: seq<Keying>, store: Store, at: nat, ops: seq<Op>)
    requires |keyings| == |store| && at < |store| && forall i | 0 <= i < |ops| :: ops[i].at == at && !ops[i].AddOp?
    ensures var r := Apply(keyings, store, ops);
      && (forall i | 0 <= i < |r.done| :: !r.done[i].Added?)
      && (r.threw <==> !HaveKeys(ops))
      && (forall i | 0 <= i < |store| && i != at :: r.store[i] == store[i])
    decreases |ops|
  {
    if ops != [] {
      var step := ApplyOp(keyings, store, ops[0]);
      if step.Stepped? {
        OthersAddNothing(keyings, step.store, at, ops[1..]);
        assert ops == [ops[0]] + ops[1..];
        assert HaveKeys(ops) <==> HaveKeys(ops[1..]);
      }
    }
  }

  lemma {:induction false} OthersHaveKeys(at: nat, c: Changes)
    ensures HaveKeys(UpdateOps(at, c.updates) + RemoveOps(at, c.removes)) <==>
      (forall i | 0 <= i < |c.updates| :: c.updates[i].entity.key.Some?) && (forall i | 0 <= i < |c.removes| :: c.removes[i].key.Some?)
  {
    var updates, removes := UpdateOps(at, c.updates), RemoveOps(at, c.removes);
    assert HaveKeys(updates) <==> forall i | 0 <= i < |c.updates| :: c.updates[i].entity.key.Some? by {
      assert forall i | 0 <= i < |c.updates| :: updates[i].item == c.updates[i].entity;
    }
    assert HaveKeys(removes) <==> forall i | 0 <= i < |c.removes| :: c.removes[i].key.Some? by {
      assert forall i | 0 <= i < |c.removes| :: removes[i].item == c.removes[i];
    }
    KeysInTwo(updates, removes);
  }

  lemma {:induction false} KeysInTwo(a: seq<Op>, b: seq<Op>)
    ensures HaveKeys(a + b) <==> HaveKeys(a) && HaveKeys(b)
  {
    if HaveKeys(a + b) {
      assert forall i | 0 <= i < |a| :: a[i] == (a + b)[i];
      assert forall i | 0 <= i < |b| :: b[i] == (a + b)[|a| + i];
    }
  }

  /** One schema's mutations: what they throw on, and whether its adds are new to what was `was`. */
  lemma {:induction false} SchemaUsesItsKeys(keyings: seq<Keying>, was: Store, store: Store, at: nat, c: Changes, uuids: seq<string>)
    requires |keyings| == |store| == |was| && at < |store| && |uuids| == |c.adds|
    ensures OpsOk(store, OpsOf(at, c, uuids))
    ensures var r := Apply(keyings, store, OpsOf(at, c, uuids));
      && (r.threw <==> !AllKeyed(keyings[at], c))
      && (AddsAreNew(was, r.done) <==> NewTo(was[at], AddKeys(keyings[at], store[at].nextId, c.adds, uuids)))
      && (forall i | 0 <= i < |store| && i != at :: r.store[i] == store[i])
  {
    var adds, others := AddOps(at, c.adds, uuids), UpdateOps(at, c.updates) + RemoveOps(at, c.removes);
    assert OpsOf(at, c, uuids) == adds + others;
    SchemaInTwo(keyings, store, at, c, uuids);
    var first, all := Apply(keyings, store, adds), Apply(keyings, store, adds + others);
    AddsUseTheirKeys(keyings, store, at, c.adds, uuids);
    AddedSlots(was, first.done, at, AddKeys(keyings[at], store[at].nextId, c.adds, uuids));
    OthersHaveKeys(at, c);
    hide Apply, AddKeys, HaveKeys, NewTo, Stored, AddsAreNew, OpsOf, SomeUnkeyed, AddOps, UpdateOps, RemoveOps;
    if first.threw {
      assert all == first;
    } else {
      var rest := Apply(keyings, first.store, others);
      NewInTwo(was, first.done, rest.done);
      OthersAddNothing(keyings, first.store, at, others);
      NothingAddedIsNew(was, rest.done);
    }
  }

  lemma {:induction false} SchemaInTwo(keyings: seq<Keying>, store: Store, at: nat, c: Changes, uuids: seq<string>)
    requires |keyings| == |store| && at < |store| && |uuids| == |c.adds|
    ensures var adds, others := AddOps(at, c.adds, uuids), UpdateOps(at, c.updates) + RemoveOps(at, c.removes);
      && OpsOk(store, adds) && OpsOk(store, others) && OpsOk(store, adds + others)
      && (forall i | 0 <= i < |others| :: others[i].at == at && !others[i].AddOp?)
      && var first, all := Apply(keyings, store, adds), Apply(keyings, store, adds + others);
         if first.threw then all == first
         else
           var rest := Apply(keyings, first.store, others);
           all == Applied(rest.store, first.done + rest.done, rest.threw)
  {
    var adds, others := AddOps(at, c.adds, uuids), UpdateOps(at, c.updates) + RemoveOps(at, c.removes);
    assert OpsOk(store, adds) && OpsOk(store, others);
    hide Apply;
    ApplyInTwo(keyings, store, adds, others);
  }

  lemma {:induction false} NothingAddedIsNew(was: Store, done: seq<Done>)
    requires forall i | 0 <= i < |done| :: !done[i].Added?
    ensures AddsAreNew(was, done)
  {
  }

  lemma {:induction false} AddedSlots(was: Store, done: seq<Done>, at: nat, keys: seq<Key>)
    requires at < |was| && |done| == |keys|
    requires forall i | 0 <= i < |keys| :: done[i].Added? && done[i].at == at && done[i].key == keys[i]
    ensures AddsAreNew(was, done) <==> NewTo(was[at], keys)
  {
    forall i | 0 <= i < |keys|
      ensures Stored(was, SlotOf(done[i])) <==> keys[i] in was[at].data
    {
    }
  }

  lemma {:induction false} NewInTwo(was: Store, a: seq<Done>, b: seq<Done>)
    ensures AddsAreNew(was, a + b) <==> AddsAreNew(was, a) && AddsAreNew(was, b)
  {
    if AddsAreNew(was, a + b) {
      assert forall i | 0 <= i < |a| :: a[i] == (a + b)[i];
      assert forall i | 0 <= i < |b| :: b[i] == (a + b)[|a| + i];
    }
  }

  /** The adds a save applies are new exactly when the staged changes say they will be. */
  lemma {:induction false} StagedKeysTell(keyings: seq<Keying>, was: Store, store: Store, staged: seq<Changes>,
                                          uuids: seq<seq<string>>, at: nat)
    requires |keyings| == |was| == |store| == |staged| && StagedOk(staged, uuids) && at <= |staged|
    requires forall i | at <= i < |store| :: store[i] == was[i]
    ensures OpsOk(store, AllOps(at, staged, uuids))
    ensures AddsAreNew(was, Apply(keyings, store, AllOps(at, staged, uuids)).done) <==> AddsWillBeNew(keyings, was, staged, uuids, at)
    decreases |staged| - at
  {
    if at < |staged| {
      var mine, others := OpsOf(at, staged[at], uuids[at]), AllOps(at + 1, staged, uuids);
      SchemaUsesItsKeys(keyings, was, store, at, staged[at], uuids[at]);
      ApplyInTwo(keyings, store, mine, others);
      var first := Apply(keyings, store, mine);
      if !first.threw {
        StagedKeysTell(keyings, was, first.store, staged, uuids, at + 1);
        NewInTwo(was, first.done, Apply(keyings, first.store, others).done);
      }
    }
  }

  /**
   A save that does not succeed, for whatever reason and at whatever point, leaves every
   collection's records as they were, exactly when a load failed, a conflict was found, or no
   add up to the first mutation that throws is to be filed under a key stored before the save.
   */
  lemma {:induction false} FailedSaveLeavesNothing(keyings: seq<Keying>, store: Store, staged: seq<Changes>,
                                                   uuids: seq<seq<string>>, e: Environment)
    requires |keyings| == |store| == |staged| && StagedOk(staged, uuids) && EnvironmentOk(e, |staged|)
    requires AllFiled(store)
    requires !BulkPersist(keyings, store, staged, uuids, e).outcome.Success?
    ensures DataOf(BulkPersist(keyings, store, staged, uuids, e).store) == DataOf(store) <==>
      || LoadsFail(staged, e.loads) || FirstConflict(store, staged, 0).Some?
      || AddsWillBeNew(keyings, store, staged, uuids, 0)
  {
    var r := BulkPersist(keyings, store, staged, uuids, e);
    if r.outcome.ApplyFailed? || r.outcome.SaveFailed? {
      var ops := AllOps(0, staged, uuids);
      ApplyKeepsLog(keyings, store, ops);
      AllOpsPutAddsFirst(0, staged, uuids);
      ApplyDoesAddsFirst(keyings, store, ops);
      FailedConclusion(store, Apply(keyings, store, ops), e);
      StagedKeysTell(keyings, store, store, staged, uuids, 0);
    }
  }

  /** Generated numbers run up from the counter. */
  lemma {:induction false} GeneratedKeysCountUp(nextId: Option<int>, adds: seq<Item>, uuids: seq<string>, i: nat)
    requires |uuids| == |adds| && i < |adds| && forall j | 0 <= j < |adds| :: adds[j].key.None?
    ensures var keys := AddKeys(Keying(true, true), nextId, adds, uuids);
      |keys| == |adds| && keys[i] == NumberKey((if nextId.Some? then nextId.value else 0) + i + 1)
    decreases |adds|
  {
    var n := if nextId.Some? then nextId.value + 1 else 1;
    if |adds| > 1 {
      GeneratedKeysCountUp(Some(n), adds[1..], uuids[1..], if i > 0 then i - 1 else 0);
    } else {
      assert adds[1..] == [] && AddKeys(Keying(true, true), Some(n), adds[1..], uuids[1..]) == [];
    }
  }

  /** With covered counters and only generated numbers among the adds, every failed save leaves nothing. */
  lemma {:induction false} GeneratedAddsFailCleanly(keyings: seq<Keying>, store: Store, staged: seq<Changes>,
                                                    uuids: seq<seq<string>>, e: Environment)
    requires |keyings| == |store| == |staged| && StagedOk(staged, uuids) && EnvironmentOk(e, |staged|)
    requires AllFiled(store) && forall i | 0 <= i < |store| :: Covered(store[i]) && OnlyGenerates(keyings[i], staged[i])
    requires !BulkPersist(keyings, store, staged, uuids, e).outcome.Success?
    ensures DataOf(BulkPersist(keyings, store, staged, uuids, e).store) == DataOf(store)
  {
    GeneratedAddsWillBeNew(keyings, store, staged, uuids, 0);
    FailedSaveLeavesNothing(keyings, store, staged, uuids, e);
  }

  /** Nothing is added, or every add has its number generated. */
  predicate OnlyGenerates(keying: Keying, c: Changes) {
    c.adds == [] || (keying == Keying(true, true) && forall i | 0 <= i < |c.adds| :: c.adds[i].key.None?)
  }

  lemma {:induction false} GeneratedAddsWillBeNew(keyings: seq<Keying>, store: Store, staged: seq<Changes>, uuids: seq<seq<string>>, at: nat)
    requires |keyings| == |store| == |staged| && StagedOk(staged, uuids) && at <= |staged|
    requires forall i | 0 <= i < |store| :: Covered(store[i]) && OnlyGenerates(keyings[i], staged[i])
    ensures AddsWillBeNew(keyings, store, staged, uuids, at)
    decreases |staged| - at
  {
    if at < |staged| {
      var keys := AddKeys(keyings[at], store[at].nextId, staged[at].adds, uuids[at]);
      forall i | 0 <= i < |keys|
        ensures keys[i] !in store[at].data
      {
        GeneratedKeysCountUp(store[at].nextId, staged[at].adds, uuids[at], if i < |staged[at].adds| then i else 0);
      }
      GeneratedAddsWillBeNew(keyings, store, staged, uuids, at + 1);
    }
  }

  /** The input on which it fails: an add under a stored key, in a save that then fails, takes the stored record with it. */
  lemma {:induction false} FailedAddOverARecordLosesIt(key: Key, row: Item, added: Item)
    requires row.key == added.key == Some(key)
    ensures var store := [Table(map[key := row], None, map[key := row])];
      var r := BulkPersist([Keying(false, false)], store, [Changes([added], [], [])], [[""]], Environment([true], [false], [true]));
      r.outcome.SaveFailed? && r.store[0].data == map[]
  {
    var t := Table(map[key := row], None, map[key := row]);
    var c := Changes([added], [], []);
    assert AllOps(1, [c], [[""]]) == [];
    assert OpsOf(0, c, [""]) == [AddOp(0, added, "")];
    assert AllOps(0, [c], [[""]]) == [AddOp(0, added, "")];
    var done := [Added(0, key, added)];
    var now := t.(data := map[key := added]);
    assert map[key := row][key := added] == map[key := added] && [t][0 := now] == [now];
    assert ApplyOp([Keying(false, false)], [t], AddOp(0, added, "")) == Stepped([now], done[0]);
    assert [AddOp(0, added, "")][1..] == [];
    assert Apply([Keying(false, false)], [now], []) == Applied([now], [], false);
    assert Apply([Keying(false, false)], [t], [AddOp(0, added, "")]) == Applied([now], done, false);
    assert done[..0] == [];
    var back := UndoOne([now], done[0]);
    assert Revert([now], done) == Revert(back, []) == back && back[0].data == map[];
    assert FirstConflict([t], [c], 1) == None && FirstFailure([false], 0) == 0;
    assert SaveWhere([now], AllSaved(1), 0) == [now];
  }

  /**
   What a failed save leaves on disk: only collections saved before the failing one were
   written; re-saving puts the reverted records back, a failed re-save leaves the new ones.
   */
  lemma {:induction false} FailedSaveOnDisk(applied: Applied, e: Environment, i: nat)
    requires EnvironmentOk(e, |applied.store|) && i < |applied.store|
    requires Within(|applied.store|, applied.done)
    requires !Conclude(applied, e).outcome.Success?
    ensures var r := Conclude(applied, e).store[i];
      var written := !applied.threw && i < FirstFailure(e.saves, 0);
      r.disk == if !written then applied.store[i].disk else if e.resaves[i] then r.data else applied.store[i].data
  {
    if applied.threw {
      RevertKeepsDisk(applied.store, applied.done);
    } else {
      var n := FirstFailure(e.saves, 0);
      var saved := SaveWhere(applied.store, AllSaved(|applied.store|), n);
      RevertKeepsDisk(saved, applied.done);
    }
  }

  lemma {:induction false} RevertKeepsDisk(store: Store, done: seq<Done>)
    requires Within(|store|, done)
    ensures forall i | 0 <= i < |store| :: Revert(store, done)[i].disk == store[i].disk
    decreases |done|
  {
    if done != [] {
      RevertKeepsDisk(UndoOne(store, done[|done| - 1]), done[..|done| - 1]);
    }
  }

  // ----- a save that succeeds -----

  /** The last logged mutation of a slot. */
  function LastOf(done: seq<Done>, slot: Slot): (r: Option<Done>)
    ensures r.Some? ==> r.value in done && SlotOf(r.value) == slot
    ensures r.None? ==> forall i | 0 <= i < |done| :: SlotOf(done[i]) != slot
  {
    if done == [] then None
    else
      var last := done[|done| - 1];
      if SlotOf(last) == slot then Some(last) else LastOf(done[..|done| - 1], slot)
  }

  function RecordAt(store: Store, slot: Slot): Option<Item> {
    if Stored(store, slot) then Some(store[slot.0].data[slot.1]) else None
  }

  lemma {:induction false} AfterSnoc(store: Store, done: seq<Done>)
    requires done != []
    ensures After(store, done) == StepBy(After(store, done[..|done| - 1]), done[|done| - 1])
    decreases |done|
  {
    if |done| == 1 {
      assert done[1..] == [] && done[..0] == [];
    } else {
      AfterSnoc(StepBy(store, done[0]), done[1..]);
      assert done[1..][..|done| - 2] == done[..|done| - 1][1..];
    }
  }

  /** Each record ends as its last mutation left it; untouched records are untouched. */
  lemma {:induction false} LastMutationWins(store: Store, done: seq<Done>, slot: Slot)
    requires Within(|store|, done)
    ensures |After(store, done)| == |store|
    ensures RecordAt(After(store, done), slot) ==
      var last := LastOf(done, slot);
      if last.None? then RecordAt(store, slot)
      else if last.value.Removed? then None
      else Some(last.value.item)
    decreases |done|
  {
    if done != [] {
      AfterSnoc(store, done);
      LastMutationWins(store, done[..|done| - 1], slot);
    }
  }

  /** One logged mutation is the submitted one; only a generated key may be new to it. */
  predicate Carries(done: Done, op: Op) {
    && done.at == op.at
    && match op
       case AddOp(_, item, _) =>
         done.Added? && done.item.cells == item.cells && done.item.key == Some(done.key) && (item.key.Some? ==> item.key == Some(done.key))
       case UpdateOp(_, item) => done.Updated? && done.item == item && item.key == Some(done.key)
       case RemoveOp(_, item) => done.Removed? && done.item == item && item.key == Some(done.key)
  }

  lemma {:induction false} ApplyCarriesOps(keyings: seq<Keying>, store: Store, ops: seq<Op>)
    requires |keyings| == |store| && OpsOk(store, ops)
    ensures var r := Apply(keyings, store, ops);
      && (if r.threw then |r.done| < |ops| else |r.done| == |ops|)
      && forall i | 0 <= i < |r.done| :: Carries(r.done[i], ops[i])
    decreases |ops|
  {
    if ops != [] && ApplyOp(keyings, store, ops[0]).Stepped? {
      var step := ApplyOp(keyings, store, ops[0]);
      assert forall i | 0 <= i < |ops[1..]| :: ops[1..][i] == ops[i + 1];
      ApplyCarriesOps(keyings, step.store, ops[1..]);
      var rest := Apply(keyings, step.store, ops[1..]).done;
      var done := Apply(keyings, store, ops).done;
      assert done == [step.done] + rest;
      forall i | 0 <= i < |done| ensures Carries(done[i], ops[i]) {
        if i > 0 { assert done[i] == rest[i - 1] && ops[1..][i - 1] == ops[i]; }
      }
    }
  }

  /** The log is the submitted mutations in order, and each record is what its last one made it. */
  ghost predicate CarriedOut(store: Store, ops: seq<Op>, now: Store, done: seq<Done>) {
    && |done| == |ops|
    && (forall i | 0 <= i < |ops| :: Carries(done[i], ops[i]))
    && (forall slot: Slot ::
          RecordAt(now, slot) ==
            var last := LastOf(done, slot);
            if last.None? then RecordAt(store, slot) else if last.value.Removed? then None else Some(last.value.item))
  }

  lemma {:induction false} ApplyCarriesOut(keyings: seq<Keying>, store: Store, ops: seq<Op>)
    requires |keyings| == |store| && OpsOk(store, ops) && !Apply(keyings, store, ops).threw
    ensures CarriedOut(store, ops, Apply(keyings, store, ops).store, Apply(keyings, store, ops).done)
  {
    var applied := Apply(keyings, store, ops);
    ApplyKeepsLog(keyings, store, ops);
    ApplyCarriesOps(keyings, store, ops);
    forall slot: Slot
      ensures RecordAt(applied.store, slot) ==
        var last := LastOf(applied.done, slot);
        if last.None? then RecordAt(store, slot) else if last.value.Removed? then None else Some(last.value.item)
    {
      LastMutationWins(store, applied.done, slot);
      SameRecords(applied.store, After(store, applied.done), slot);
    }
  }

  /**
   A save that succeeds has carried out every submitted mutation, in the order schema by
   schema, adds then updates then removes; each record is what its last mutation made it, and
   every collection has been saved as it stands.
   */
  lemma {:induction false} SuccessfulSaveAppliesEverything(keyings: seq<Keying>, store: Store, staged: seq<Changes>,
                                                           uuids: seq<seq<string>>, e: Environment)
    requires |keyings| == |store| == |staged| && StagedOk(staged, uuids) && EnvironmentOk(e, |staged|)
    requires BulkPersist(keyings, store, staged, uuids, e).outcome.Success?
    ensures var r := BulkPersist(keyings, store, staged, uuids, e);
      && CarriedOut(store, AllOps(0, staged, uuids), r.store, r.done)
      && forall i | 0 <= i < |store| :: r.store[i].disk == r.store[i].data
  {
    var applied := Apply(keyings, store, AllOps(0, staged, uuids));
    ApplyCarriesOut(keyings, store, AllOps(0, staged, uuids));
    forall slot: Slot
      ensures RecordAt(Conclude(applied, e).store, slot) == RecordAt(applied.store, slot)
    {
      SameRecords(Conclude(applied, e).store, applied.store, slot);
    }
  }

  lemma {:induction false} SameRecords(a: Store, b: Store, slot: Slot)
    requires |a| == |b|
    requires slot.0 < |a| ==> a[slot.0].data == b[slot.0].data || DataOf(a) == DataOf(b)
    ensures RecordAt(a, slot) == RecordAt(b, slot)
  {
    if slot.0 < |a| {
      assert DataOf(a)[slot.0] == a[slot.0].data && DataOf(b)[slot.0] == b[slot.0].data;
    }
  }

  // ----- generated keys -----

  /** Every stored number key is at or below the counter. */
  predicate Covered(t: Table) {
    forall k | k in t.data && k.NumberKey? :: t.nextId.Some? && k.n <= t.nextId.value
  }

  /** A generated number never lands on a stored record, and adding keeps it so. */
  lemma {:induction false} GeneratedIdsAreNew(t: Table, item: Item, uuid: string)
    requires Covered(t)
    ensures var r := AddTo(Keying(true, true), t, item, uuid);
      r.Some? && Covered(r.value.0) && (item.key.None? ==> r.value.1.key.value !in t.data)
  {
  }

  /** Reading a file in never touches a record in memory, brings every keyed record of the file, and keeps the counter covering. */
  lemma {:induction false} HydrationNeverClobbers(keying: Keying, t: Table, items: seq<Item>, uuids: seq<string>)
    requires |uuids| == |items| && Hydrated(keying, t, items, uuids).Some?
    ensures var r := Hydrated(keying, t, items, uuids).value;
      && (forall k | k in t.data :: k in r.data && r.data[k] == t.data[k])
      && (forall i | 0 <= i < |items| && items[i].key.Some? :: items[i].key.value in r.data)
      && (keying.identity && Covered(t) ==> Covered(r))
  {
    if items != [] {
      var n := |items| - 1;
      HydrationNeverClobbers(keying, t, items[..n], uuids[..n]);
      var before := Hydrated(keying, t, items[..n], uuids[..n]).value;
      assert forall i | 0 <= i < n :: items[..n][i] == items[i];
      HydratesOne(keying, before, items[n], uuids[n]);
    }
  }

  lemma {:induction false} HydratesOne(keying: Keying, t: Table, item: Item, uuid: string)
    requires AddIfAbsentTo(keying, t, item, uuid).Some?
    ensures var r := AddIfAbsentTo(keying, t, item, uuid).value;
      && (forall k | k in t.data :: k in r.data && r.data[k] == t.data[k])
      && (item.key.Some? ==> item.key.value in r.data)
      && (keying.identity && Covered(t) ==> Covered(r))
  {
  }

  /**
   An update writes its record without moving the counter, so it keeps generated keys new
   exactly when its own key is not a number above the counter.
   */
  lemma {:induction false} UpdateKeepsCoverIff(t: Table, item: Item)
    requires Covered(t) && item.key.Some?
    ensures Covered(UpdateIn(t, item).value) <==>
      (item.key.value.NumberKey? ==> t.nextId.Some? && item.key.value.n <= t.nextId.value)
  {
    assert item.key.value in UpdateIn(t, item).value.data;
  }

  /** An update of an absent row followed by an add: the generated key overwrites the row. */
  lemma {:induction false} UpsertThenAddOverwrites(row: Item, added: Item)
    requires row.key == Some(NumberKey(1)) && added.key == None
    ensures var t := UpdateIn(Table(map[], None, map[]), row).value;
      var r := AddTo(Keying(true, true), t, added, "");
      r.Some? && r.value.1.key == row.key && r.value.0.data == map[NumberKey(1) := added.(key := row.key)]
  {
  }
}
