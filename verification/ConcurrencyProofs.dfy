/** No update is lost, over every run of any number of stores that keep the discipline. */
module ConcurrencyProofs {
  import opened Options
  import opened Persist
  import opened PersistProofs
  import opened Concurrency

  // ----- one committed mutation -----

  /** The system after one more mutation of a successful save. */
  function Absorb(s: System, who: nat, d: Done): System
    requires who < |s.observed| == |s.seen| && !d.Removed?
  {
    System(StepBy(s.backend, d),
           s.observed[who := if VersionOf(d.item).Some? then s.observed[who][SlotOf(d) := VersionOf(d.item).value] else s.observed[who]],
           s.seen[who := s.seen[who][SlotOf(d) := d.item]],
           if d.Updated? then s.log + [Commit(who, SlotOf(d), SeenAt(s.seen[who], SlotOf(d)), d.prior, d.item)] else s.log)
  }

  predicate NoneRemoved(done: seq<Done>) { forall i | 0 <= i < |done| :: !done[i].Removed? }

  function AbsorbAll(s: System, who: nat, done: seq<Done>): (r: System)
    requires who < |s.observed| == |s.seen| && NoneRemoved(done)
    ensures |r.observed| == |s.observed| && |r.seen| == |s.seen|
  {
    if done == [] then s else Absorb(AbsorbAll(s, who, done[..|done| - 1]), who, done[|done| - 1])
  }

  /** An add of a new row at version 1, or an update of exactly what its store last saw, one version up. */
  predicate Good(s: System, who: nat, d: Done) {
    && who < |s.seen| && d.at < |s.backend| && !d.Removed? && d.item.key == Some(d.key)
    && var slot := SlotOf(d);
    if d.Added? then !Stored(s.backend, slot) && VersionOf(d.item) == Some(1)
    else
      && Stored(s.backend, slot) && d.prior == RecordAt(s.backend, slot) && SeenAt(s.seen[who], slot) == d.prior
      && VersionOf(d.prior.value).Some? && VersionOf(d.item) == Some(VersionOf(d.prior.value).value + 1)
  }

  lemma {:induction false} LogSnoc(log: seq<Commit>, c: Commit, slot: Slot)
    ensures CommitsOn(log + [c], slot) == CommitsOn(log, slot) + if c.slot == slot then 1 else 0
    ensures LastCommit(log + [c], slot) == if c.slot == slot then Some(c) else LastCommit(log, slot)
  {
    assert (log + [c])[..|log + [c]| - 1] == log;
  }

  lemma {:induction false} UnwrittenSlot(log: seq<Commit>, slot: Slot)
    requires forall i | 0 <= i < |log| :: log[i].slot != slot
    ensures CommitsOn(log, slot) == 0 && LastCommit(log, slot) == None
  {
    if log != [] { UnwrittenSlot(log[..|log| - 1], slot); }
  }

  lemma {:induction false} LastCommitIsInLog(log: seq<Commit>, slot: Slot)
    ensures LastCommit(log, slot).Some? ==> LastCommit(log, slot).value in log && LastCommit(log, slot).value.slot == slot
  {
    if log != [] { LastCommitIsInLog(log[..|log| - 1], slot); }
  }

  lemma {:induction false} ChainedSnoc(log: seq<Commit>, c: Commit)
    requires Chained(log)
    requires LastCommit(log, c.slot).Some? ==> c.replaced == Some(LastCommit(log, c.slot).value.written)
    ensures Chained(log + [c])
  {
    var more := log + [c];
    forall i | 0 <= i < |more|
      ensures LastCommit(more[..i], more[i].slot).Some? ==> more[i].replaced == Some(LastCommit(more[..i], more[i].slot).value.written)
    {
      assert more[..i] == log[..i];
      if i == |log| { assert log[..i] == log; }
    }
  }

  lemma {:induction false} AbsorbCountsSlot(s: System, who: nat, d: Done, slot: Slot)
    requires Counted(s.backend, s.log) && who < |s.observed| == |s.seen| && Good(s, who, d)
    requires Stored(Absorb(s, who, d).backend, slot)
    ensures CountedAt(Absorb(s, who, d).backend[slot.0].data[slot.1], Absorb(s, who, d).log, slot)
  {
    hide CommitsOn, LastCommit;
    var here := SlotOf(d);
    if d.Updated? {
      LogSnoc(s.log, Commit(who, here, SeenAt(s.seen[who], here), d.prior, d.item), slot);
    }
    if slot != here {
      assert Stored(s.backend, slot);
      assert CountedAt(s.backend[slot.0].data[slot.1], s.log, slot);
    } else if d.Updated? {
      assert CountedAt(s.backend[slot.0].data[slot.1], s.log, slot);
    } else {
      UnwrittenSlot(s.log, slot);
    }
  }

  lemma {:induction false} AbsorbCounts(s: System, who: nat, d: Done)
    requires Counted(s.backend, s.log) && who < |s.observed| == |s.seen| && Good(s, who, d)
    ensures Counted(Absorb(s, who, d).backend, Absorb(s, who, d).log)
  {
    var r := Absorb(s, who, d);
    forall slot: Slot | Stored(r.backend, slot)
      ensures CountedAt(r.backend[slot.0].data[slot.1], r.log, slot)
    {
      AbsorbCountsSlot(s, who, d, slot);
    }
    forall i | 0 <= i < |r.log| ensures Stored(r.backend, r.log[i].slot) {
      if i < |s.log| { assert Stored(s.backend, s.log[i].slot); }
    }
  }

  lemma {:induction false} AbsorbKeepsOthersInStep(s: System, who: nat, d: Done, other: nat)
    requires Safe(s) && who < |s.observed| && Good(s, who, d) && other < |s.observed|
    ensures InStep(Absorb(s, who, d).backend, Absorb(s, who, d).observed[other], Absorb(s, who, d).seen[other])
  {
    var r := Absorb(s, who, d);
    assert InStep(s.backend, s.observed[other], s.seen[other]);
    forall slot | slot in r.observed[other]
      ensures && Stored(r.backend, slot) && slot in r.seen[other] && VersionOf(r.seen[other][slot]) == Some(r.observed[other][slot])
              && var now := r.backend[slot.0].data[slot.1];
              && VersionOf(now).Some? && r.observed[other][slot] <= VersionOf(now).value
              && (r.observed[other][slot] == VersionOf(now).value ==> r.seen[other][slot] == now)
    {
    }
  }

  lemma {:induction false} NothingLostSnoc(log: seq<Commit>, c: Commit)
    requires NothingLost(log) && c.replaced.Some? && c.seen == c.replaced && VersionOf(c.replaced.value).Some?
    requires VersionOf(c.written) == Some(VersionOf(c.replaced.value).value + 1)
    ensures NothingLost(log + [c])
  {
  }

  lemma {:induction false} AbsorbLosesNothing(s: System, who: nat, d: Done)
    requires NothingLost(s.log) && Chained(s.log) && Counted(s.backend, s.log)
    requires who < |s.observed| == |s.seen| && Good(s, who, d)
    ensures NothingLost(Absorb(s, who, d).log) && Chained(Absorb(s, who, d).log)
  {
    if d.Updated? {
      var slot := SlotOf(d);
      assert CountedAt(s.backend[slot.0].data[slot.1], s.log, slot);
      var c := Commit(who, slot, SeenAt(s.seen[who], slot), d.prior, d.item);
      assert Absorb(s, who, d).log == s.log + [c];
      hide CommitsOn, LastCommit, Counted, NothingLost, Chained, Absorb;
      NothingLostSnoc(s.log, c);
      ChainedSnoc(s.log, c);
    }
  }

  lemma {:induction false} AbsorbKeepsSafe(s: System, who: nat, d: Done)
    requires Safe(s) && who < |s.observed| && Good(s, who, d)
    ensures Safe(Absorb(s, who, d))
  {
    var r := Absorb(s, who, d);
    AbsorbCounts(s, who, d);
    AbsorbLosesNothing(s, who, d);
    forall other | 0 <= other < |r.observed|
      ensures InStep(r.backend, r.observed[other], r.seen[other])
    {
      AbsorbKeepsOthersInStep(s, who, d, other);
    }
    assert AllFiled(r.backend) by {
      forall i | 0 <= i < |r.backend| ensures Filed(r.backend[i]) { assert Filed(s.backend[i]); }
    }
  }

  // ----- a whole save, mutation by mutation -----

  /** Mutations of other slots leave a slot, and what its store saw of it, alone. */
  lemma {:induction false} OtherSlotsUntouched(s: System, who: nat, done: seq<Done>, slot: Slot)
    requires who < |s.observed| == |s.seen| && NoneRemoved(done)
    requires forall i | 0 <= i < |done| :: SlotOf(done[i]) != slot
    ensures var r := AbsorbAll(s, who, done);
      && |r.backend| == |s.backend| && RecordAt(r.backend, slot) == RecordAt(s.backend, slot)
      && SeenAt(r.seen[who], slot) == SeenAt(s.seen[who], slot)
  {
    if done != [] {
      OtherSlotsUntouched(s, who, done[..|done| - 1], slot);
    }
  }

  lemma {:induction false} GoodLater(s: System, who: nat, done: seq<Done>, d: Done)
    requires who < |s.observed| == |s.seen| && NoneRemoved(done) && Good(s, who, d)
    requires forall i | 0 <= i < |done| :: SlotOf(done[i]) != SlotOf(d)
    ensures Good(AbsorbAll(s, who, done), who, d)
  {
    OtherSlotsUntouched(s, who, done, SlotOf(d));
    var r := AbsorbAll(s, who, done);
    assert Stored(r.backend, SlotOf(d)) <==> RecordAt(r.backend, SlotOf(d)).Some?;
    assert Stored(s.backend, SlotOf(d)) <==> RecordAt(s.backend, SlotOf(d)).Some?;
  }

  lemma {:induction false} AbsorbAllKeepsSafe(s: System, who: nat, done: seq<Done>)
    requires Safe(s) && who < |s.observed| && DistinctSlots(done)
    requires forall i | 0 <= i < |done| :: Good(s, who, done[i])
    ensures NoneRemoved(done) && Safe(AbsorbAll(s, who, done))
  {
    assert NoneRemoved(done) by {
      forall i | 0 <= i < |done| ensures !done[i].Removed? { assert Good(s, who, done[i]); }
    }
    if done != [] {
      var pre := done[..|done| - 1];
      assert forall i | 0 <= i < |pre| :: pre[i] == done[i];
      AbsorbAllKeepsSafe(s, who, pre);
      GoodLater(s, who, pre, done[|done| - 1]);
      AbsorbKeepsSafe(AbsorbAll(s, who, pre), who, done[|done| - 1]);
    }
  }

  /** Absorbing the log is what `NextSystem` does with it. */
  lemma {:induction false} AbsorbAllIs(s: System, who: nat, done: seq<Done>)
    requires who < |s.observed| == |s.seen| && NoneRemoved(done) && Within(|s.backend|, done)
    ensures var r := AbsorbAll(s, who, done);
      && r.backend == After(s.backend, done)
      && r.observed == s.observed[who := ObserveDone(s.observed[who], done)]
      && r.seen == s.seen[who := SeeDone(s.seen[who], done)]
      && r.log == s.log + Commits(who, s.seen[who], done)
  {
    if done != [] {
      AbsorbAllIs(s, who, done[..|done| - 1]);
      AfterSnoc(s.backend, done);
    }
  }

  // ----- what a successful save's log looks like -----

  /** Each mutation comes from one place of the staged changes. */
  predicate From(op: Op, staged: seq<Changes>) {
    && op.at < |staged|
    && match op
       case AddOp(at, item, _) => item in staged[at].adds
       case UpdateOp(at, item) => exists j | 0 <= j < |staged[at].updates| :: staged[at].updates[j].entity == item
       case RemoveOp(at, item) => item in staged[at].removes
  }

  lemma {:induction false} OpsComeFromStaged(at: nat, staged: seq<Changes>, uuids: seq<seq<string>>, i: nat)
    requires StagedOk(staged, uuids) && at <= |staged| && i < |AllOps(at, staged, uuids)|
    ensures From(AllOps(at, staged, uuids)[i], staged)
    decreases |staged| - at
  {
    var mine, rest := OpsOf(at, staged[at], uuids[at]), AllOps(at + 1, staged, uuids);
    if i < |mine| {
      var n, m := |staged[at].adds|, |staged[at].updates|;
      if n <= i < n + m {
        assert mine[i] == UpdateOps(at, staged[at].updates)[i - n];
        assert staged[at].updates[i - n].entity == mine[i].item;
      } else if n + m <= i {
        assert mine[i] == RemoveOps(at, staged[at].removes)[i - n - m];
      } else {
        assert mine[i] == AddOps(at, staged[at].adds, uuids[at])[i];
      }
    } else {
      OpsComeFromStaged(at + 1, staged, uuids, i - |mine|);
    }
  }

  lemma {:induction false} NoKeysNoConflicts(t: Table, updates: seq<Update>, j: nat)
    requires ConflictKeys(t, updates) == [] && j < |updates|
    ensures !Conflicts(t, updates[j])
    decreases |updates|
  {
    if j < |updates| - 1 { NoKeysNoConflicts(t, updates[..|updates| - 1], j); }
  }

  lemma {:induction false} NoConflictAnywhere(store: Store, staged: seq<Changes>, from: nat, at: nat)
    requires |store| == |staged| && from <= at < |staged| && FirstConflict(store, staged, from).None?
    ensures ConflictKeys(store[at], staged[at].updates) == []
    decreases at - from
  {
    if from < at { NoConflictAnywhere(store, staged, from + 1, at); }
  }

  /** With every slot changed once, the logged prior is the record from before the save. */
  lemma {:induction false} PriorsAreFromTheStart(store: Store, done: seq<Done>, i: nat)
    requires LogOf(store, done) && DistinctSlots(done) && i < |done| && done[i].Updated?
    ensures done[i].prior == RecordAt(store, SlotOf(done[i]))
    decreases i
  {
    if i > 0 {
      var next := StepBy(store, done[0]);
      assert forall k | 0 <= k < |done[1..]| :: done[1..][k] == done[k + 1];
      PriorsAreFromTheStart(next, done[1..], i - 1);
      assert SlotOf(done[0]) != SlotOf(done[i]);
    }
  }

  // ----- no slot is changed twice -----

  lemma {:induction false} UpdateKeysAt(updates: seq<Update>)
    requires forall i | 0 <= i < |updates| :: updates[i].entity.key.Some?
    ensures |UpdateKeys(updates)| == |updates|
    ensures forall i | 0 <= i < |updates| :: UpdateKeys(updates)[i] == updates[i].entity.key.value
  {
    if updates != [] {
      UpdateKeysAt(updates[1..]);
    }
  }

  /** The keys one schema's mutations are logged under. */
  lemma {:induction false} LoggedKeys(keyings: seq<Keying>, store: Store, at: nat, c: Changes, uuids: seq<string>)
    requires |keyings| == |store| && at < |store| && |uuids| == |c.adds| && c.removes == []
    requires OpsOk(store, OpsOf(at, c, uuids)) && !Apply(keyings, store, OpsOf(at, c, uuids)).threw
    ensures var done := Apply(keyings, store, OpsOf(at, c, uuids)).done;
      var keys := AddKeys(keyings[at], store[at].nextId, c.adds, uuids) + UpdateKeys(c.updates);
      |done| == |keys| && forall i | 0 <= i < |keys| :: SlotOf(done[i]) == (at, keys[i])
  {
    var adds, updates := AddOps(at, c.adds, uuids), UpdateOps(at, c.updates);
    assert OpsOf(at, c, uuids) == adds + updates;
    AddsUseTheirKeys(keyings, store, at, c.adds, uuids);
    ApplyInTwo(keyings, store, adds, updates);
    var first := Apply(keyings, store, adds);
    ApplyCarriesOps(keyings, store, adds);
    ApplyCarriesOps(keyings, first.store, updates);
    var rest := Apply(keyings, first.store, updates).done;
    forall i | 0 <= i < |updates|
      ensures c.updates[i].entity.key == Some(rest[i].key) && rest[i].at == at
    {
      assert Carries(rest[i], updates[i]);
    }
    UpdateKeysAt(c.updates);
    var done, early, late := Apply(keyings, store, adds + updates).done, first.done, UpdateKeys(c.updates);
    hide Apply, AddKeys, UpdateKeys, AddOps, UpdateOps, OpsOf, Carries;
    assert done == early + rest && |rest| == |late|;
    forall i | 0 <= i < |late|
      ensures SlotOf(rest[i]) == (at, late[i])
    {
    }
  }

  lemma {:induction false} LoggedOnce(keyings: seq<Keying>, was: Store, store: Store, staged: seq<Changes>,
                                      uuids: seq<seq<string>>, at: nat)
    requires |keyings| == |was| == |store| == |staged| && StagedOk(staged, uuids) && at <= |staged|
    requires (forall i | at <= i < |store| :: store[i] == was[i]) && NoRemoves(staged) && ChangedOnce(keyings, was, staged, uuids)
    requires OpsOk(store, AllOps(at, staged, uuids)) && !Apply(keyings, store, AllOps(at, staged, uuids)).threw
    ensures var done := Apply(keyings, store, AllOps(at, staged, uuids)).done;
      && DistinctSlots(done)
      && forall i | 0 <= i < |done| ::
           at <= done[i].at < |staged| && done[i].key in ChangedKeys(keyings, was, staged, uuids, done[i].at)
    decreases |staged| - at
  {
    hide AddKeys, UpdateKeys, AllKeyed, NewTo, AddsAreNew, OpsOf;
    if at < |staged| {
      var mine, others := OpsOf(at, staged[at], uuids[at]), AllOps(at + 1, staged, uuids);
      SchemaUsesItsKeys(keyings, was, store, at, staged[at], uuids[at]);
      ApplyInTwo(keyings, store, mine, others);
      var first := Apply(keyings, store, mine);
      LoggedKeys(keyings, store, at, staged[at], uuids[at]);
      LoggedOnce(keyings, was, first.store, staged, uuids, at + 1);
      var rest := Apply(keyings, first.store, others).done;
      assert ChangedKeys(keyings, was, staged, uuids, at)
        == AddKeys(keyings[at], store[at].nextId, staged[at].adds, uuids[at]) + UpdateKeys(staged[at].updates);
      assert DistinctSlots(first.done);
      hide ChangedKeys, Apply, AllOps, NoDuplicates;
      DistinctInTwo(first.done, rest, at);
    }
  }

  lemma {:induction false} DistinctInTwo(a: seq<Done>, b: seq<Done>, at: nat)
    requires DistinctSlots(a) && DistinctSlots(b)
    requires (forall i | 0 <= i < |a| :: a[i].at == at) && forall i | 0 <= i < |b| :: b[i].at > at
    ensures DistinctSlots(a + b) && forall i | 0 <= i < |a + b| :: (a + b)[i].at >= at
  {
    forall i, j | 0 <= i < j < |a + b|
      ensures SlotOf((a + b)[i]) != SlotOf((a + b)[j])
    {
      if i < |a| <= j {
        assert a[i].at < b[j - |a|].at;
      } else if |a| <= i {
        assert SlotOf(b[i - |a|]) != SlotOf(b[j - |a|]);
      }
    }
  }

  /** What a disciplined save that goes through has logged. */
  lemma {:induction false} DisciplinedLog(keyings: seq<Keying>, s: System, step: Step)
    requires StepOk(keyings, s, step) && step.Save? && Disciplined(keyings, s, step) && Succeeds(keyings, s, step)
    ensures var r := SaveThrough(keyings, s.backend, s.observed[step.who], step.staged, step.uuids, step.e);
      var ops := AllOps(0, Stamp(s.observed[step.who], step.staged), step.uuids);
      && LogOf(s.backend, r.done) && Within(|s.backend|, r.done) && DataOf(r.store) == DataOf(After(s.backend, r.done))
      && |r.done| == |ops| && (forall i | 0 <= i < |ops| :: Carries(r.done[i], ops[i]))
      && AddsAreNew(s.backend, r.done) && DistinctSlots(r.done)
      && forall i | 0 <= i < |r.done| ::
           r.done[i].key in ChangedKeys(keyings, s.backend, Stamp(s.observed[step.who], step.staged), step.uuids, r.done[i].at)
  {
    var staged := Stamp(s.observed[step.who], step.staged);
    var ops := AllOps(0, staged, step.uuids);
    var applied := Apply(keyings, s.backend, ops);
    assert SaveThrough(keyings, s.backend, s.observed[step.who], step.staged, step.uuids, step.e) == Conclude(applied, step.e);
    assert AddsWillBeNew(keyings, s.backend, staged, step.uuids, 0) && ChangedOnce(keyings, s.backend, staged, step.uuids);
    assert !applied.threw && Conclude(applied, step.e).done == applied.done;
    forall at | 0 <= at < |staged|
      ensures staged[at].removes == []
    {
      assert step.staged[at].removes == [];
    }
    hide SaveThrough, BulkPersist, Disciplined, Stamp, AddsWillBeNew, ChangedOnce;
    SavedLog(keyings, s.backend, ops, applied, step.e);
    StagedKeysTell(keyings, s.backend, s.backend, staged, step.uuids, 0);
    LoggedOnce(keyings, s.backend, s.backend, staged, step.uuids, 0);
  }

  lemma {:induction false} SuccessfulSaveIsGood(keyings: seq<Keying>, s: System, step: Step)
    requires Safe(s) && StepOk(keyings, s, step) && step.Save? && Disciplined(keyings, s, step)
    requires Succeeds(keyings, s, step) && Looks(keyings, s, step)
    ensures var r := SaveThrough(keyings, s.backend, s.observed[step.who], step.staged, step.uuids, step.e);
      && DataOf(r.store) == DataOf(After(s.backend, r.done)) && Within(|s.backend|, r.done) && DistinctSlots(r.done)
      && forall i | 0 <= i < |r.done| :: Good(s, step.who, r.done[i])
  {
    DisciplinedLog(keyings, s, step);
    var r := SaveThrough(keyings, s.backend, s.observed[step.who], step.staged, step.uuids, step.e);
    forall i | 0 <= i < |r.done|
      ensures Good(s, step.who, r.done[i])
    {
      MutationIsGood(keyings, s, step, r.done, AllOps(0, Stamp(s.observed[step.who], step.staged), step.uuids), i);
    }
  }

  /** A save that goes through leaves its log's records. */
  lemma {:induction false} SavedLog(keyings: seq<Keying>, store: Store, ops: seq<Op>, applied: Applied, e: Environment)
    requires |keyings| == |store| && OpsOk(store, ops) && applied == Apply(keyings, store, ops)
    requires EnvironmentOk(e, |store|) && Conclude(applied, e).outcome.Success?
    ensures LogOf(store, applied.done) && Within(|store|, applied.done) && |applied.done| == |ops|
    ensures forall i | 0 <= i < |ops| :: Carries(applied.done[i], ops[i])
    ensures DataOf(Conclude(applied, e).store) == DataOf(After(store, applied.done))
  {
    ApplyKeepsLog(keyings, store, ops);
    ApplyCarriesOps(keyings, store, ops);
    LogOfAt(store, applied.done);
    var r := Conclude(applied, e);
    forall i | 0 <= i < |r.store| ensures DataOf(r.store)[i] == DataOf(applied.store)[i] {}
    assert DataOf(r.store) == DataOf(applied.store);
  }

  lemma {:induction false} MutationIsGood(keyings: seq<Keying>, s: System, step: Step, done: seq<Done>, ops: seq<Op>, i: nat)
    requires Safe(s) && StepOk(keyings, s, step) && step.Save?
    requires NoRemoves(step.staged) && Observing(s.observed[step.who], step.staged)
    requires ops == AllOps(0, Stamp(s.observed[step.who], step.staged), step.uuids)
    requires FirstConflict(s.backend, Stamp(s.observed[step.who], step.staged), 0).None?
    requires AddsAreNew(s.backend, done) && DistinctSlots(done) && LogOf(s.backend, done)
    requires i < |done| <= |ops| && Carries(done[i], ops[i])
    ensures Good(s, step.who, done[i])
  {
    var staged := Stamp(s.observed[step.who], step.staged);
    OpsComeFromStaged(0, staged, step.uuids, i);
    LogOfAt(s.backend, done);
    var at := ops[i].at;
    assert step.staged[at].removes == [];
    if ops[i].UpdateOp? {
      var j :| 0 <= j < |staged[at].updates| && staged[at].updates[j].entity == ops[i].item;
      NoConflictAnywhere(s.backend, staged, 0, at);
      NoKeysNoConflicts(s.backend[at], staged[at].updates, j);
      PriorsAreFromTheStart(s.backend, done, i);
      assert staged[at].updates[j] == StampUpdate(s.observed[step.who], at, step.staged[at].updates[j]);
      hide AllOps, FirstConflict, ConflictKeys, LogOf, Counted, NothingLost, Chained, DistinctSlots, AddsAreNew, Stamp;
      UpdateIsGood(s, step.who, done[i], step.staged[at].updates[j]);
    } else if ops[i].AddOp? {
      var j :| 0 <= j < |staged[at].adds| && staged[at].adds[j] == ops[i].item;
      assert VersionOf(ops[i].item) == Some(1);
    }
  }

  /** An update of an observed row, not in conflict, is of the very record its store last saw. */
  lemma {:induction false} UpdateIsGood(s: System, who: nat, d: Done, u: Update)
    requires Safe(s) && who < |s.observed| && d.at < |s.backend| && d.Updated? && d.prior == RecordAt(s.backend, SlotOf(d))
    requires u.entity.key == Some(d.key) == d.item.key && SlotOf(d) in s.observed[who]
    requires var stamped := StampUpdate(s.observed[who], d.at, u); d.item == stamped.entity && !Conflicts(s.backend[d.at], stamped)
    ensures Good(s, who, d)
  {
    assert InStep(s.backend, s.observed[who], s.seen[who]);
  }

  // ----- every step, every run -----

  lemma {:induction false} SameDataSameSafe(s: System, backend: Store)
    requires Safe(s) && |backend| == |s.backend| && DataOf(backend) == DataOf(s.backend)
    ensures Safe(s.(backend := backend))
  {
    assert forall i | 0 <= i < |backend| :: DataOf(backend)[i] == DataOf(s.backend)[i];
    forall slot: Slot | Stored(backend, slot)
      ensures CountedAt(backend[slot.0].data[slot.1], s.log, slot)
    {
      assert Stored(s.backend, slot);
      assert CountedAt(s.backend[slot.0].data[slot.1], s.log, slot);
    }
    forall who | 0 <= who < |s.observed|
      ensures InStep(backend, s.observed[who], s.seen[who])
    {
      assert InStep(s.backend, s.observed[who], s.seen[who]);
    }
    assert forall i | 0 <= i < |backend| :: Filed(s.backend[i]) ==> Filed(backend[i]);
  }

  lemma {:induction false} ReadKeepsSafe(keyings: seq<Keying>, s: System, step: Step)
    requires Safe(s) && StepOk(keyings, s, step) && step.Read?
    ensures Safe(NextSystem(keyings, s, step))
  {
    hide NothingLost, Chained, Counted, AllFiled;
    var r := NextSystem(keyings, s, step);
    forall who | 0 <= who < |r.observed|
      ensures InStep(r.backend, r.observed[who], r.seen[who])
    {
      assert InStep(s.backend, s.observed[who], s.seen[who]);
      ReadingStaysInStep(s.backend, s.observed[who], s.seen[who], step.at, step.keys);
      hide InStep, ObserveRows, SeeRows;
    }
  }

  lemma {:induction false} ReadingStaysInStep(backend: Store, observed: Observed, seen: map<Slot, Item>, at: nat, keys: set<Key>)
    requires InStep(backend, observed, seen) && at < |backend|
    ensures InStep(backend, ObserveRows(observed, backend[at], at, keys), SeeRows(seen, backend[at], at, keys))
  {
    hide VersionOf;
  }

  lemma {:induction false} ForgettingKeepsSafe(s: System, who: nat, slots: set<Slot>)
    requires Safe(s) && who < |s.observed|
    ensures Safe(s.(observed := s.observed[who := s.observed[who] - slots]))
  {
    var r := s.(observed := s.observed[who := s.observed[who] - slots]);
    forall i | 0 <= i < |r.observed|
      ensures InStep(r.backend, r.observed[i], r.seen[i])
    {
      assert InStep(s.backend, s.observed[i], s.seen[i]);
    }
  }

  lemma {:induction false} StepKeepsSafe(keyings: seq<Keying>, s: System, step: Step)
    requires Safe(s) && StepOk(keyings, s, step) && Disciplined(keyings, s, step) && Looks(keyings, s, step)
    ensures Safe(NextSystem(keyings, s, step))
  {
    if step.Read? {
      ReadKeepsSafe(keyings, s, step);
    } else {
      var r := SaveThrough(keyings, s.backend, s.observed[step.who], step.staged, step.uuids, step.e);
      if r.outcome.Success? {
        SuccessfulSaveIsGood(keyings, s, step);
        AbsorbAllKeepsSafe(s, step.who, r.done);
        AbsorbAllIs(s, step.who, r.done);
        SameDataSameSafe(AbsorbAll(s, step.who, r.done), r.store);
      } else {
        FailedSaveLeavesNothing(keyings, s.backend, Stamp(s.observed[step.who], step.staged), step.uuids, step.e);
        var forgot := if r.outcome.Conflicted? then KeysAsSlots(r.outcome.conflict.at, r.outcome.conflict.keys) else {};
        ForgettingKeepsSafe(s, step.who, forgot);
        SameDataSameSafe(s.(observed := s.observed[step.who := s.observed[step.who] - forgot]), r.store);
        assert s.observed[step.who] - {} == s.observed[step.who];
      }
    }
  }

  // ----- an update that did not look loses one -----

  lemma {:induction false} UpdateIsStaged(staged: seq<Changes>, uuids: seq<seq<string>>, from: nat, at: nat, j: nat)
    requires StagedOk(staged, uuids) && from <= at < |staged| && j < |staged[at].updates|
    ensures exists i | 0 <= i < |AllOps(from, staged, uuids)| ::
      AllOps(from, staged, uuids)[i] == UpdateOp(at, staged[at].updates[j].entity)
    decreases at - from
  {
    var mine, rest := OpsOf(from, staged[from], uuids[from]), AllOps(from + 1, staged, uuids);
    var ops := AllOps(from, staged, uuids);
    assert ops == mine + rest;
    if from < at {
      UpdateIsStaged(staged, uuids, from + 1, at, j);
      var i :| 0 <= i < |rest| && rest[i] == UpdateOp(at, staged[at].updates[j].entity);
      assert ops[|mine| + i] == rest[i];
    } else {
      var i := |staged[at].adds| + j;
      assert mine[i] == UpdateOps(at, staged[at].updates)[j];
      assert ops[i] == mine[i];
    }
  }

  lemma {:induction false} UpdateIsCommitted(who: nat, seen: map<Slot, Item>, done: seq<Done>, i: nat)
    requires i < |done| && done[i].Updated?
    ensures exists k | 0 <= k < |Commits(who, seen, done)| ::
      var c := Commits(who, seen, done)[k]; c.replaced == done[i].prior && c.written == done[i].item
    decreases |done|
  {
    var pre := done[..|done| - 1];
    var before, all := Commits(who, seen, pre), Commits(who, seen, done);
    if i < |pre| {
      assert pre[i] == done[i];
      UpdateIsCommitted(who, seen, pre, i);
      var k :| 0 <= k < |before| && before[k].replaced == done[i].prior && before[k].written == done[i].item;
      assert all[k] == before[k];
    } else {
      assert all[|before|].replaced == done[i].prior && all[|before|].written == done[i].item;
    }
  }

  /** An update that did not look is stamped 1. */
  lemma {:induction false} UnseenUpdateIsStampedOne(observed: Observed, staged: seq<Changes>)
    requires !Observing(observed, staged)
    ensures exists at, j | 0 <= at < |staged| && 0 <= j < |Stamp(observed, staged)[at].updates| ::
      VersionOf(Stamp(observed, staged)[at].updates[j].entity) == Some(1)
  {
    var at, j :| 0 <= at < |staged| && 0 <= j < |staged[at].updates|
      && !(staged[at].updates[j].entity.key.Some? && (at, staged[at].updates[j].entity.key.value) in observed);
    assert Stamp(observed, staged)[at].updates[j] == StampUpdate(observed, at, staged[at].updates[j]);
  }

  /** Versions start at 1, so a record written at version 1 is not one up on what it replaced. */
  lemma {:induction false} VersionOneLosesItsPrior(s: System, who: nat, done: seq<Done>, i: nat)
    requires Safe(s) && who < |s.seen| && LogOf(s.backend, done) && DistinctSlots(done)
    requires i < |done| && done[i].Updated? && done[i].at < |s.backend| && VersionOf(done[i].item) == Some(1)
    ensures !NothingLost(s.log + Commits(who, s.seen[who], done))
  {
    PriorsAreFromTheStart(s.backend, done, i);
    var d := done[i];
    assert d.prior.Some? ==> CountedAt(d.prior.value, s.log, SlotOf(d));
    assert d.prior.Some? ==> VersionOf(d.prior.value).Some? && VersionOf(d.prior.value).value >= 1;
    var commits := Commits(who, s.seen[who], done);
    UpdateIsCommitted(who, s.seen[who], done, i);
    hide Safe, LogOf, DistinctSlots, Commits, CommitsOn, LastCommit, CountedAt;
    var k :| 0 <= k < |commits| && commits[k].replaced == d.prior && commits[k].written == d.item;
    assert (s.log + commits)[|s.log| + k] == commits[k];
  }

  lemma {:induction false} StampedOneIsLogged(staged: seq<Changes>, uuids: seq<seq<string>>, done: seq<Done>)
    requires StagedOk(staged, uuids) && |done| == |AllOps(0, staged, uuids)|
    requires forall i | 0 <= i < |done| :: Carries(done[i], AllOps(0, staged, uuids)[i])
    requires exists at, j | 0 <= at < |staged| && 0 <= j < |staged[at].updates| :: VersionOf(staged[at].updates[j].entity) == Some(1)
    ensures exists i | 0 <= i < |done| :: done[i].Updated? && VersionOf(done[i].item) == Some(1)
  {
    var at, j :| 0 <= at < |staged| && 0 <= j < |staged[at].updates| && VersionOf(staged[at].updates[j].entity) == Some(1);
    UpdateIsStaged(staged, uuids, 0, at, j);
    hide AllOps, VersionOf;
    var i :| 0 <= i < |done| && AllOps(0, staged, uuids)[i] == UpdateOp(at, staged[at].updates[j].entity);
    assert Carries(done[i], AllOps(0, staged, uuids)[i]);
  }

  lemma {:induction false} UnseenUpdateIsLost(keyings: seq<Keying>, s: System, step: Step)
    requires Safe(s) && StepOk(keyings, s, step) && Disciplined(keyings, s, step) && !Looks(keyings, s, step)
    ensures !NothingLost(NextSystem(keyings, s, step).log)
  {
    var r := SaveThrough(keyings, s.backend, s.observed[step.who], step.staged, step.uuids, step.e);
    DisciplinedLog(keyings, s, step);
    UnseenUpdateIsStampedOne(s.observed[step.who], step.staged);
    StampedOneIsLogged(Stamp(s.observed[step.who], step.staged), step.uuids, r.done);
    var i :| 0 <= i < |r.done| && r.done[i].Updated? && VersionOf(r.done[i].item) == Some(1);
    assert NextSystem(keyings, s, step).log == s.log + Commits(step.who, s.seen[step.who], r.done);
    hide NextSystem, Safe, SaveThrough, LogOf, Commits;
    VersionOneLosesItsPrior(s, step.who, r.done, i);
  }

  /** A disciplined step keeps the invariant exactly when a save that goes through had looked at what it updates. */
  lemma {:induction false} StepKeepsSafeIff(keyings: seq<Keying>, s: System, step: Step)
    requires Safe(s) && StepOk(keyings, s, step) && Disciplined(keyings, s, step)
    ensures Safe(NextSystem(keyings, s, step)) <==> Looks(keyings, s, step)
    ensures NothingLost(NextSystem(keyings, s, step).log) <==> Looks(keyings, s, step)
  {
    if Looks(keyings, s, step) {
      StepKeepsSafe(keyings, s, step);
    } else {
      UnseenUpdateIsLost(keyings, s, step);
    }
  }

  ghost predicate RunOk(keyings: seq<Keying>, s: System, run: seq<Step>)
    decreases |run|
  {
    run == []
    || (StepOk(keyings, s, run[0]) && Disciplined(keyings, s, run[0]) && RunOk(keyings, NextSystem(keyings, s, run[0]), run[1..]))
  }

  function Run(keyings: seq<Keying>, s: System, run: seq<Step>): (r: System)
    requires RunOk(keyings, s, run)
    ensures |s.seen| == |s.observed| ==> |r.seen| == |r.observed|
    decreases |run|
  {
    if run == [] then s else Run(keyings, NextSystem(keyings, s, run[0]), run[1..])
  }

  /** Every save of the run that goes through updates only rows its store then observes. */
  ghost predicate EverySaveLooks(keyings: seq<Keying>, s: System, run: seq<Step>)
    requires RunOk(keyings, s, run)
    decreases |run|
  {
    run == [] || (Looks(keyings, s, run[0]) && EverySaveLooks(keyings, NextSystem(keyings, s, run[0]), run[1..]))
  }

  function EmptySystem(collections: nat, stores: nat): (r: System)
    ensures |r.backend| == collections && |r.observed| == |r.seen| == stores
    ensures forall slot: Slot :: !Stored(r.backend, slot)
  {
    System(seq(collections, _ => Table(map[], None, map[])), seq(stores, _ => map[]), seq(stores, _ => map[]), [])
  }

  lemma {:induction false} LostStaysLost(log: seq<Commit>, longer: seq<Commit>)
    requires log <= longer && NothingLost(longer)
    ensures NothingLost(log)
  {
    assert forall i | 0 <= i < |log| :: log[i] == longer[i];
  }

  lemma {:induction false} LogOnlyGrows(keyings: seq<Keying>, s: System, run: seq<Step>)
    requires RunOk(keyings, s, run)
    ensures s.log <= Run(keyings, s, run).log
    decreases |run|
  {
    hide Disciplined;
    if run != [] {
      var next := NextSystem(keyings, s, run[0]);
      assert s.log <= next.log;
      hide NextSystem;
      LogOnlyGrows(keyings, next, run[1..]);
    }
  }

  lemma {:induction false} RunKeepsSafeIff(keyings: seq<Keying>, s: System, run: seq<Step>)
    requires Safe(s) && RunOk(keyings, s, run)
    ensures NothingLost(Run(keyings, s, run).log) <==> EverySaveLooks(keyings, s, run)
    ensures EverySaveLooks(keyings, s, run) ==> Safe(Run(keyings, s, run))
    decreases |run|
  {
    if run != [] {
      StepKeepsSafeIff(keyings, s, run[0]);
      var next := NextSystem(keyings, s, run[0]);
      if Looks(keyings, s, run[0]) {
        RunKeepsSafeIff(keyings, next, run[1..]);
      } else {
        LogOnlyGrows(keyings, next, run[1..]);
        if NothingLost(Run(keyings, s, run).log) {
          LostStaysLost(next.log, Run(keyings, s, run).log);
        }
      }
    }
  }

  /**
   Over every disciplined run of any number of stores from an empty backend: each committed
   update replaced exactly the record its store had last seen, one version up, if and only if
   every save that went through updated only rows its store then observed. Each commit of a row
   then follows on the one before it, a row's version counts its commits, and no store's memory
   is ever ahead of the backend.
   */
  lemma {:induction false} NoUpdateIsLostIff(keyings: seq<Keying>, stores: nat, run: seq<Step>)
    requires RunOk(keyings, EmptySystem(|keyings|, stores), run)
    ensures var start := EmptySystem(|keyings|, stores);
      var s := Run(keyings, start, run);
      && (NothingLost(s.log) <==> EverySaveLooks(keyings, start, run))
      && (EverySaveLooks(keyings, start, run) ==>
            && Chained(s.log) && Counted(s.backend, s.log)
            && forall who | 0 <= who < |s.observed| :: InStep(s.backend, s.observed[who], s.seen[who]))
  {
    RunKeepsSafeIff(keyings, EmptySystem(|keyings|, stores), run);
  }

  // ----- when a save is refused -----

  lemma {:induction false} SomeConflictIsFound(t: Table, updates: seq<Update>, j: nat)
    requires j < |updates| && Conflicts(t, updates[j])
    ensures ConflictKeys(t, updates) != []
    decreases |updates|
  {
    if j < |updates| - 1 { SomeConflictIsFound(t, updates[..|updates| - 1], j); }
  }

  lemma {:induction false} ConflictIsSomewhere(t: Table, updates: seq<Update>)
    requires ConflictKeys(t, updates) != []
    ensures exists j :: 0 <= j < |updates| && Conflicts(t, updates[j])
    decreases |updates|
  {
    var last := |updates| - 1;
    if !Conflicts(t, updates[last]) {
      ConflictIsSomewhere(t, updates[..last]);
      var j :| 0 <= j < last && Conflicts(t, updates[..last][j]);
      assert Conflicts(t, updates[j]);
    }
  }

  predicate AnyConflict(store: Store, staged: seq<Changes>, from: nat)
    requires |store| == |staged|
  {
    exists at, j :: from <= at < |staged| && 0 <= j < |staged[at].updates| && Conflicts(store[at], staged[at].updates[j])
  }

  lemma {:induction false} FirstConflictFindsAny(store: Store, staged: seq<Changes>, from: nat)
    requires |store| == |staged| && from <= |staged|
    ensures FirstConflict(store, staged, from).Some? <==> AnyConflict(store, staged, from)
    decreases |staged| - from
  {
    if from < |staged| {
      FirstConflictFindsAny(store, staged, from + 1);
      if ConflictKeys(store[from], staged[from].updates) != [] {
        ConflictIsSomewhere(store[from], staged[from].updates);
      } else {
        forall j | 0 <= j < |staged[from].updates| ensures !Conflicts(store[from], staged[from].updates[j]) {
          NoKeysNoConflicts(store[from], staged[from].updates, j);
        }
      }
    }
  }

  /** An update whose store's observation is behind the backend. */
  predicate Stale(backend: Store, observed: Observed, at: nat, u: Update) {
    && u.entity.key.Some? && (at, u.entity.key.value) in observed
    && var now := RecordAt(backend, (at, u.entity.key.value));
    now.Some? && VersionOf(now.value) != Some(observed[(at, u.entity.key.value)])
  }

  /**
   A save of observed rows is refused exactly when some row has moved on since its store last
   saw it, and a refused save changes nothing.
   */
  lemma {:induction false} RefusedExactlyWhenStale(keyings: seq<Keying>, s: System, step: Step)
    requires StepOk(keyings, s, step) && step.Save? && Observing(s.observed[step.who], step.staged)
    requires !LoadsFail(Stamp(s.observed[step.who], step.staged), step.e.loads)
    ensures var r := SaveThrough(keyings, s.backend, s.observed[step.who], step.staged, step.uuids, step.e);
      && (r.outcome.Conflicted? <==>
            exists at, j :: 0 <= at < |step.staged| && 0 <= j < |step.staged[at].updates|
              && Stale(s.backend, s.observed[step.who], at, step.staged[at].updates[j]))
      && (r.outcome.Conflicted? ==> r.store == s.backend && r.done == [])
  {
    var observed := s.observed[step.who];
    var staged := Stamp(observed, step.staged);
    FirstConflictFindsAny(s.backend, staged, 0);
    forall at, j | 0 <= at < |staged| && 0 <= j < |staged[at].updates|
      ensures Conflicts(s.backend[at], staged[at].updates[j]) <==> Stale(s.backend, observed, at, step.staged[at].updates[j])
    {
      var u := step.staged[at].updates[j];
      assert u.entity.key.Some? && (at, u.entity.key.value) in observed;
      assert staged[at].updates[j] == StampUpdate(observed, at, u);
    }
  }

  // ----- what the discipline keeps out -----

  /** A one-row save to a one-collection backend. */
  function OneUpdate(entity: Item): seq<Changes> { [Changes([], [Update(entity, None)], [])] }

  /** An update of a row this store does not observe is unchecked: it replaces whatever is stored, at version 1. */
  lemma {:induction false} UnobservedUpdateIsUnchecked(keying: Keying, t: Table, observed: Observed, entity: Item)
    requires entity.key.Some? && (0, entity.key.value) !in observed
    ensures var e := Environment([true], [true], [true]);
      var r := SaveThrough([keying], [t], observed, OneUpdate(entity), [[]], e);
      && r.outcome.Success?
      && RecordAt(r.store, (0, entity.key.value)) == Some(WithVersion(entity, 1))
  {
    var e := Environment([true], [true], [true]);
    var staged := Stamp(observed, OneUpdate(entity));
    var stamped := WithVersion(entity, 1);
    assert staged[0] == StampChanges(observed, 0, OneUpdate(entity)[0]);
    assert staged[0].updates == [Update(stamped, None)];
    assert !Conflicts(t, staged[0].updates[0]);
    assert ConflictKeys(t, staged[0].updates) == ConflictKeys(t, []) == [] by {
      assert staged[0].updates[..0] == [];
    }
    assert FirstConflict([t], staged, 0) == FirstConflict([t], staged, 1) == None;
    var op := UpdateOp(0, stamped);
    assert OpsOf(0, staged[0], []) == [op];
    assert AllOps(0, staged, [[]]) == [op] by { assert AllOps(1, staged, [[]]) == []; }
    assert [op][1..] == [];
    var now := [UpdateIn(t, stamped).value];
    assert [t][0 := now[0]] == now;
    var done := Updated(0, entity.key.value, stamped, Prior(t, stamped));
    assert ApplyOp([keying], [t], op) == Stepped(now, done);
    assert Apply([keying], now, [op][1..]) == Applied(now, [], false);
    assert [done] + [] == [done];
    assert Apply([keying], [t], [op]) == Applied(now, [done], false);
    assert FirstFailure(e.saves, 0) == 1;
  }

  /**
   A conflict forgets the row it names. Saving again without reading it first is therefore
   unchecked, and overwrites the record the store lost to.
   */
  lemma {:induction false} RetryWithoutReadingOverwrites(keying: Keying, t: Table, observed: Observed, entity: Item)
    requires entity.key.Some?
    requires var e := Environment([true], [true], [true]);
      var r := SaveThrough([keying], [t], observed, OneUpdate(entity), [[]], e);
      r.outcome.Conflicted? && r.outcome.conflict.at == 0 && entity.key.value in r.outcome.conflict.keys
    ensures var e := Environment([true], [true], [true]);
      var r := SaveThrough([keying], [t], observed, OneUpdate(entity), [[]], e);
      var retry := SaveThrough([keying], r.store, ObserveOutcome(observed, r), OneUpdate(entity), [[]], e);
      && r.store == [t] && retry.outcome.Success?
      && RecordAt(retry.store, (0, entity.key.value)) == Some(WithVersion(entity, 1))
  {
    var e := Environment([true], [true], [true]);
    var r := SaveThrough([keying], [t], observed, OneUpdate(entity), [[]], e);
    UnobservedUpdateIsUnchecked(keying, t, ObserveOutcome(observed, r), entity);
  }
}
