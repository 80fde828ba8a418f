/**
 Optimistic concurrency as core/src/plugins/ConcurrencyDbPlugin.ts layers it over the in-memory
 save: any number of stores, each remembering the versions it last observed, over one backend.
 */
module Concurrency {
  import opened Options
  import opened Persist
  import opened PersistProofs

  const VERSION := "__version"

  /** The hidden column of a record, when it holds a number. */
  function VersionOf(item: Item): Option<int> {
    if VERSION in item.cells && item.cells[VERSION].NumberCell? then Some(item.cells[VERSION].n) else None
  }

  function WithVersion(item: Item, n: int): (r: Item)
    ensures VersionOf(r) == Some(n) && r.key == item.key
  {
    item.(cells := item.cells[VERSION := NumberCell(n)])
  }

  /** What one store last observed, row by row. */
  type Observed = map<Slot, int>

  // ----- stamping a save -----

  function StampUpdate(observed: Observed, at: nat, u: Update): Update {
    if u.entity.key.Some? && (at, u.entity.key.value) in observed then
      var expected := observed[(at, u.entity.key.value)];
      Update(WithVersion(u.entity, expected + 1), Some(Check(VERSION, NumberCell(expected))))
    else Update(WithVersion(u.entity, 1), u.check)
  }

  function StampChanges(observed: Observed, at: nat, c: Changes): (r: Changes)
    ensures |r.adds| == |c.adds| && |r.updates| == |c.updates| && r.removes == c.removes
    ensures forall i | 0 <= i < |c.adds| :: r.adds[i] == WithVersion(c.adds[i], 1)
    ensures forall i | 0 <= i < |c.updates| :: r.updates[i] == StampUpdate(observed, at, c.updates[i])
  {
    Changes(seq(|c.adds|, i requires 0 <= i < |c.adds| => WithVersion(c.adds[i], 1)),
            seq(|c.updates|, i requires 0 <= i < |c.updates| => StampUpdate(observed, at, c.updates[i])),
            c.removes)
  }

  function Stamp(observed: Observed, staged: seq<Changes>): (r: seq<Changes>)
    ensures |r| == |staged|
    ensures forall at | 0 <= at < |r| :: r[at] == StampChanges(observed, at, staged[at])
  {
    seq(|staged|, at requires 0 <= at < |staged| => StampChanges(observed, at, staged[at]))
  }

  // ----- observing -----

  /** What a persist echo teaches: versions of added and updated rows, nothing about removed ones. */
  function ObserveDone(observed: Observed, done: seq<Done>): Observed {
    if done == [] then observed
    else
      var before := ObserveDone(observed, done[..|done| - 1]);
      var d := done[|done| - 1];
      if d.Removed? then before - {SlotOf(d)}
      else if VersionOf(d.item).Some? then before[SlotOf(d) := VersionOf(d.item).value]
      else before
  }

  /** What a query over some keys of a collection teaches. */
  function ObserveRows(observed: Observed, t: Table, at: nat, keys: set<Key>): Observed {
    observed + map slot: Slot | slot in SlotsOf(at, keys) && slot.1 in t.data && VersionOf(t.data[slot.1]).Some?
      :: VersionOf(t.data[slot.1]).value
  }

  function SlotsOf(at: nat, keys: set<Key>): (r: set<Slot>)
    ensures forall slot: Slot :: slot in r <==> slot.0 == at && slot.1 in keys
  {
    set k | k in keys :: (at, k)
  }

  function KeysAsSlots(at: nat, keys: seq<Key>): (r: set<Slot>)
    ensures forall slot: Slot :: slot in r <==> slot.0 == at && slot.1 in keys
  {
    set k | k in keys :: (at, k)
  }

  /** The rows a conflict names are forgotten, so that the next read observes them afresh. */
  function ObserveOutcome(observed: Observed, r: Persisted): Observed {
    match r.outcome
    case Success => ObserveDone(observed, r.done)
    case Conflicted(c) => observed - KeysAsSlots(c.at, c.keys)
    case _ => observed
  }

  /** One store's save through the wrapper. */
  function SaveThrough(keyings: seq<Keying>, backend: Store, observed: Observed, staged: seq<Changes>,
                       uuids: seq<seq<string>>, e: Environment): Persisted
    requires |keyings| == |backend| == |staged| && StagedOk(staged, uuids) && EnvironmentOk(e, |staged|)
  {
    BulkPersist(keyings, backend, Stamp(observed, staged), uuids, e)
  }

  // ----- any number of stores -----

  /** One committed update: what its store had last seen of the row, what it replaced, what it wrote. */
  datatype Commit = Commit(who: nat, slot: Slot, seen: Option<Item>, replaced: Option<Item>, written: Item)

  /** `seen` and `log` are history: the records behind the observed versions, and the committed updates. */
  datatype System = System(backend: Store, observed: seq<Observed>, seen: seq<map<Slot, Item>>, log: seq<Commit>)

  datatype Step =
    | Read(who: nat, at: nat, keys: set<Key>)
    | Save(who: nat, staged: seq<Changes>, uuids: seq<seq<string>>, e: Environment)

  predicate Shaped(keyings: seq<Keying>, s: System) {
    |keyings| == |s.backend| && |s.seen| == |s.observed|
  }

  predicate StepOk(keyings: seq<Keying>, s: System, step: Step) {
    && Shaped(keyings, s) && step.who < |s.observed|
    && match step
       case Read(_, at, _) => at < |s.backend|
       case Save(_, staged, uuids, e) => |staged| == |s.backend| && StagedOk(staged, uuids) && EnvironmentOk(e, |staged|)
  }

  function SeeDone(seen: map<Slot, Item>, done: seq<Done>): map<Slot, Item> {
    if done == [] then seen
    else
      var d := done[|done| - 1];
      var before := SeeDone(seen, done[..|done| - 1]);
      if d.Removed? then before - {SlotOf(d)} else before[SlotOf(d) := d.item]
  }

  function SeeRows(seen: map<Slot, Item>, t: Table, at: nat, keys: set<Key>): map<Slot, Item> {
    seen + map slot: Slot | slot in SlotsOf(at, keys) && slot.1 in t.data :: t.data[slot.1]
  }

  function SeenAt(seen: map<Slot, Item>, slot: Slot): Option<Item> { if slot in seen then Some(seen[slot]) else None }

  /** The updates a save committed, in order. */
  function Commits(who: nat, seen: map<Slot, Item>, done: seq<Done>): seq<Commit> {
    if done == [] then []
    else
      var before := Commits(who, seen, done[..|done| - 1]);
      var d := done[|done| - 1];
      if d.Updated? then
        before + [Commit(who, SlotOf(d), SeenAt(SeeDone(seen, done[..|done| - 1]), SlotOf(d)), d.prior, d.item)]
      else before
  }

  function NextSystem(keyings: seq<Keying>, s: System, step: Step): (r: System)
    requires StepOk(keyings, s, step)
    ensures Shaped(keyings, r) && |r.observed| == |s.observed|
  {
    match step
    case Read(who, at, keys) =>
      s.(observed := s.observed[who := ObserveRows(s.observed[who], s.backend[at], at, keys)],
         seen := s.seen[who := SeeRows(s.seen[who], s.backend[at], at, keys)])
    case Save(who, staged, uuids, e) =>
      var r := SaveThrough(keyings, s.backend, s.observed[who], staged, uuids, e);
      var s' := s.(backend := r.store, observed := s.observed[who := ObserveOutcome(s.observed[who], r)]);
      if r.outcome.Success? then
        s'.(seen := s.seen[who := SeeDone(s.seen[who], r.done)], log := s.log + Commits(who, s.seen[who], r.done))
      else s'
  }

  // ----- the discipline under which nothing is lost -----

  predicate DistinctSlots(done: seq<Done>) {
    forall i, j | 0 <= i < j < |done| :: SlotOf(done[i]) != SlotOf(done[j])
  }

  /** Each update is of a row its store holds an observation of, and asks for no check of its own. */
  predicate Observing(observed: Observed, staged: seq<Changes>) {
    forall at, j | 0 <= at < |staged| && 0 <= j < |staged[at].updates| ::
      var u := staged[at].updates[j];
      u.entity.key.Some? && (at, u.entity.key.value) in observed
  }

  predicate NoRemoves(staged: seq<Changes>) {
    forall at | 0 <= at < |staged| :: staged[at].removes == []
  }

  /** The keys a list of updates will be filed under, up to the first that throws. */
  function UpdateKeys(updates: seq<Update>): (r: seq<Key>)
    ensures |r| <= |updates|
  {
    if updates == [] || updates[0].entity.key.None? then []
    else [updates[0].entity.key.value] + UpdateKeys(updates[1..])
  }

  predicate NoDuplicates(keys: seq<Key>) { forall i, j | 0 <= i < j < |keys| :: keys[i] != keys[j] }

  /** The keys under which a save will file records in collection `at`. */
  function ChangedKeys(keyings: seq<Keying>, store: Store, staged: seq<Changes>, uuids: seq<seq<string>>, at: nat): seq<Key>
    requires |keyings| == |store| == |staged| && StagedOk(staged, uuids) && at < |staged|
  {
    AddKeys(keyings[at], store[at].nextId, staged[at].adds, uuids[at]) + UpdateKeys(staged[at].updates)
  }

  /** No row is added or updated twice in one save. */
  predicate ChangedOnce(keyings: seq<Keying>, store: Store, staged: seq<Changes>, uuids: seq<seq<string>>)
    requires |keyings| == |store| == |staged| && StagedOk(staged, uuids)
  {
    forall at | 0 <= at < |staged| :: NoDuplicates(ChangedKeys(keyings, store, staged, uuids, at))
  }

  /** No removes, no add reuses a stored key, no row is changed twice. */
  predicate Disciplined(keyings: seq<Keying>, s: System, step: Step)
    requires StepOk(keyings, s, step)
  {
    step.Save? ==>
      var staged := Stamp(s.observed[step.who], step.staged);
      && NoRemoves(step.staged)
      && AddsWillBeNew(keyings, s.backend, staged, step.uuids, 0) && ChangedOnce(keyings, s.backend, staged, step.uuids)
  }

  predicate Succeeds(keyings: seq<Keying>, s: System, step: Step)
    requires StepOk(keyings, s, step) && step.Save?
  {
    SaveThrough(keyings, s.backend, s.observed[step.who], step.staged, step.uuids, step.e).outcome.Success?
  }

  /** A save that goes through updates only rows its store observes. */
  predicate Looks(keyings: seq<Keying>, s: System, step: Step)
    requires StepOk(keyings, s, step)
  {
    step.Save? && Succeeds(keyings, s, step) ==> Observing(s.observed[step.who], step.staged)
  }

  // ----- the invariant -----

  /** One store's memory against the backend: never ahead, and exact when level. */
  predicate InStep(backend: Store, observed: Observed, seen: map<Slot, Item>) {
    forall slot | slot in observed ::
      && Stored(backend, slot) && slot in seen && VersionOf(seen[slot]) == Some(observed[slot])
      && var now := backend[slot.0].data[slot.1];
      && VersionOf(now).Some? && observed[slot] <= VersionOf(now).value
      && (observed[slot] == VersionOf(now).value ==> seen[slot] == now)
  }

  /** The last committed update of a row. */
  function LastCommit(log: seq<Commit>, slot: Slot): Option<Commit> {
    if log == [] then None
    else if log[|log| - 1].slot == slot then Some(log[|log| - 1])
    else LastCommit(log[..|log| - 1], slot)
  }

  function CommitsOn(log: seq<Commit>, slot: Slot): nat {
    if log == [] then 0
    else CommitsOn(log[..|log| - 1], slot) + if log[|log| - 1].slot == slot then 1 else 0
  }

  /** Nothing is lost: each commit replaced the very record its store had last seen, one version up. */
  predicate NothingLost(log: seq<Commit>) {
    forall i | 0 <= i < |log| ::
      && log[i].replaced.Some? && log[i].seen == log[i].replaced
      && VersionOf(log[i].replaced.value).Some?
      && VersionOf(log[i].written) == Some(VersionOf(log[i].replaced.value).value + 1)
  }

  /** Each commit replaced what the previous commit of the same row had written. */
  predicate Chained(log: seq<Commit>) {
    forall i | 0 <= i < |log| ::
      LastCommit(log[..i], log[i].slot).Some? ==> log[i].replaced == Some(LastCommit(log[..i], log[i].slot).value.written)
  }

  /** Versions count commits, and a row is what its last commit wrote. */
  ghost predicate Counted(backend: Store, log: seq<Commit>) {
    && (forall i | 0 <= i < |log| :: Stored(backend, log[i].slot))
    && forall slot: Slot | Stored(backend, slot) :: CountedAt(backend[slot.0].data[slot.1], log, slot)
  }

  predicate CountedAt(now: Item, log: seq<Commit>, slot: Slot) {
    && VersionOf(now) == Some(1 + CommitsOn(log, slot))
    && (LastCommit(log, slot).Some? ==> now == LastCommit(log, slot).value.written)
  }

  ghost predicate Safe(s: System) {
    && |s.seen| == |s.observed| && AllFiled(s.backend)
    && (forall who | 0 <= who < |s.observed| :: InStep(s.backend, s.observed[who], s.seen[who]))
    && NothingLost(s.log) && Chained(s.log) && Counted(s.backend, s.log)
  }
}
