/**
 The in-memory save of core/src/plugins/EphemeralDataPlugin.ts over the collections of
 core/src/collections/MemoryDataCollection.ts, as functions on the collections' contents.
 `PersistPlugin` is the mutating form.
 */
module Persist {
  import opened Options

  datatype Key = NumberKey(n: int) | TextKey(s: string)

  datatype Cell = NumberCell(n: int) | TextCell(s: string) | OtherCell(o: nat)

  /** A stored or submitted record; `key` is missing when the key property is null. */
  datatype Item = Item(key: Option<Key>, cells: map<string, Cell>)

  type Data = map<Key, Item>

  /** One collection: what it holds, the counter behind numeric identities, and what was last saved. */
  datatype Table = Table(data: Data, nextId: Option<int>, disk: Data)

  /** How a schema keys its records. */
  datatype Keying = Keying(identity: bool, numeric: bool)

  // ----- MemoryDataCollection -----

  /** `getAndSetId` and `resolveId`: the item with its id set, and the counter after it. */
  function AssignId(keying: Keying, nextId: Option<int>, item: Item, uuid: string): (Item, Option<int>) {
    if item.key.None? then
      if keying.numeric then
        var n := if nextId.None? then 1 else nextId.value + 1;
        (item.(key := Some(NumberKey(n))), Some(n))
      else (item.(key := Some(TextKey(uuid))), nextId)
    else
      var k := item.key.value;
      (item, if k.TextKey? || (nextId.Some? && k.n <= nextId.value) then nextId else Some(k.n))
  }

  /** `add`: `None` is the throw on a null key of a schema that does not generate keys. */
  function AddTo(keying: Keying, t: Table, item: Item, uuid: string): (r: Option<(Table, Item)>)
    ensures r.Some? ==> r.value.1.key.Some? && r.value.1.cells == item.cells
  {
    if keying.identity then
      var withId := AssignId(keying, t.nextId, item, uuid);
      Some((t.(data := t.data[withId.0.key.value := withId.0], nextId := withId.1), withId.0))
    else if item.key.None? then None
    else Some((t.(data := t.data[item.key.value := item]), item))
  }

  /** `addIfAbsent`: a stored record is read in around what memory already holds, but its key always moves the counter. */
  function AddIfAbsentTo(keying: Keying, t: Table, item: Item, uuid: string): Option<Table> {
    if !keying.identity && item.key.None? then None
    else
      var withId := if keying.identity then AssignId(keying, t.nextId, item, uuid) else (item, t.nextId);
      var key := withId.0.key.value;
      Some(t.(nextId := withId.1, data := if key in t.data then t.data else t.data[key := withId.0]))
  }

  /** The records of a file, read in one after another. */
  function Hydrated(keying: Keying, t: Table, items: seq<Item>, uuids: seq<string>): Option<Table>
    requires |uuids| == |items|
  {
    if items == [] then Some(t)
    else
      var n := |items| - 1;
      var before := Hydrated(keying, t, items[..n], uuids[..n]);
      if before.None? then None else AddIfAbsentTo(keying, before.value, items[n], uuids[n])
  }

  function UpdateIn(t: Table, item: Item): Option<Table> {
    if item.key.None? then None else Some(t.(data := t.data[item.key.value := item]))
  }

  function RemoveFrom(t: Table, item: Item): Option<Table> {
    if item.key.None? then None else Some(t.(data := t.data - {item.key.value}))
  }

  function Prior(t: Table, item: Item): Option<Item> {
    if item.key.Some? && item.key.value in t.data then Some(t.data[item.key.value]) else None
  }

  // ----- one save -----

  /** The conditional part of an update: the column must still hold the expected value. */
  datatype Check = Check(column: string, expected: Cell)

  datatype Update = Update(entity: Item, check: Option<Check>)

  datatype Changes = Changes(adds: seq<Item>, updates: seq<Update>, removes: seq<Item>)

  /** A mutation of collection `at`; `uuid` is what a generated text id would be. */
  datatype Op =
    | AddOp(at: nat, item: Item, uuid: string)
    | UpdateOp(at: nat, item: Item)
    | RemoveOp(at: nat, item: Item)

  /** A mutation that went through, with what its undo needs. */
  datatype Done =
    | Added(at: nat, key: Key, item: Item)
    | Updated(at: nat, key: Key, item: Item, prior: Option<Item>)
    | Removed(at: nat, key: Key, item: Item, prior: Option<Item>)

  type Store = seq<Table>

  predicate OpOk(store: Store, op: Op) { op.at < |store| }

  datatype Stepped = Stepped(store: Store, done: Done) | Threw

  function ApplyOp(keyings: seq<Keying>, store: Store, op: Op): (r: Stepped)
    requires |keyings| == |store| && OpOk(store, op)
    ensures r.Stepped? ==> |r.store| == |store| && r.done.at == op.at
  {
    var t := store[op.at];
    match op
    case AddOp(i, item, uuid) =>
      var r := AddTo(keyings[i], t, item, uuid);
      if r.None? then Threw
      else Stepped(store[i := r.value.0], Added(i, r.value.1.key.value, r.value.1))
    case UpdateOp(i, item) =>
      var r := UpdateIn(t, item);
      if r.None? then Threw else Stepped(store[i := r.value], Updated(i, item.key.value, item, Prior(t, item)))
    case RemoveOp(i, item) =>
      var r := RemoveFrom(t, item);
      if r.None? then Threw else Stepped(store[i := r.value], Removed(i, item.key.value, item, Prior(t, item)))
  }

  /** What applying leaves: everything done, or what was done before the throw. */
  datatype Applied = Applied(store: Store, done: seq<Done>, threw: bool)

  predicate OpsOk(store: Store, ops: seq<Op>) { forall i | 0 <= i < |ops| :: OpOk(store, ops[i]) }

  function Apply(keyings: seq<Keying>, store: Store, ops: seq<Op>): (r: Applied)
    requires |keyings| == |store| && OpsOk(store, ops)
    ensures |r.store| == |store|
    ensures Within(|store|, r.done)
    decreases |ops|
  {
    if ops == [] then Applied(store, [], false)
    else
      match ApplyOp(keyings, store, ops[0])
      case Threw => Applied(store, [], true)
      case Stepped(store', done) =>
        var rest := Apply(keyings, store', ops[1..]);
        Applied(rest.store, [done] + rest.done, rest.threw)
  }

  // ----- the undo log -----

  /** Every logged mutation is of one of `n` collections. */
  predicate Within(n: nat, done: seq<Done>) { forall i | 0 <= i < |done| :: done[i].at < n }

  /** What the undo of one mutation does; a remove that found nothing has none. */
  function UndoOne(store: Store, done: Done): (r: Store)
    requires done.at < |store|
    ensures |r| == |store|
  {
    var t := store[done.at];
    match done
    case Added(i, k, _) => store[i := t.(data := t.data - {k})]
    case Updated(i, k, _, prior) =>
      store[i := if prior.Some? then RestoreIn(t, prior.value) else t.(data := t.data - {k})]
    case Removed(i, k, _, prior) =>
      if prior.Some? then store[i := RestoreIn(t, prior.value)] else store
  }

  /** `update(prior)`: filed under the prior record's own key. */
  function RestoreIn(t: Table, prior: Item): Table {
    if prior.key.None? then t else t.(data := t.data[prior.key.value := prior])
  }

  /** The undo log, run backwards. */
  function Revert(store: Store, done: seq<Done>): (r: Store)
    requires Within(|store|, done)
    ensures |r| == |store|
    decreases |done|
  {
    if done == [] then store
    else Revert(UndoOne(store, done[|done| - 1]), done[..|done| - 1])
  }

  // ----- staging, validation and saving -----

  function AddOps(at: nat, items: seq<Item>, uuids: seq<string>): (r: seq<Op>)
    requires |uuids| == |items|
    ensures |r| == |items| && forall i | 0 <= i < |r| :: r[i] == AddOp(at, items[i], uuids[i])
  {
    seq(|items|, i requires 0 <= i < |items| => AddOp(at, items[i], uuids[i]))
  }

  function UpdateOps(at: nat, updates: seq<Update>): (r: seq<Op>)
    ensures |r| == |updates| && forall i | 0 <= i < |r| :: r[i] == UpdateOp(at, updates[i].entity)
  {
    seq(|updates|, i requires 0 <= i < |updates| => UpdateOp(at, updates[i].entity))
  }

  function RemoveOps(at: nat, items: seq<Item>): (r: seq<Op>)
    ensures |r| == |items| && forall i | 0 <= i < |r| :: r[i] == RemoveOp(at, items[i])
  {
    seq(|items|, i requires 0 <= i < |items| => RemoveOp(at, items[i]))
  }

  /** One schema's mutations: adds, then updates, then removes. */
  function OpsOf(at: nat, changes: Changes, uuids: seq<string>): seq<Op>
    requires |uuids| == |changes.adds|
  {
    AddOps(at, changes.adds, uuids) + UpdateOps(at, changes.updates) + RemoveOps(at, changes.removes)
  }

  predicate StagedOk(staged: seq<Changes>, uuids: seq<seq<string>>) {
    |uuids| == |staged| && forall i | 0 <= i < |staged| :: |uuids[i]| == |staged[i].adds|
  }

  /** Every schema's mutations, schema by schema, from schema `at` on. */
  function AllOps(at: nat, staged: seq<Changes>, uuids: seq<seq<string>>): (r: seq<Op>)
    requires StagedOk(staged, uuids) && at <= |staged|
    ensures forall i | 0 <= i < |r| :: at <= r[i].at < |staged|
    decreases |staged| - at
  {
    if at == |staged| then [] else OpsOf(at, staged[at], uuids[at]) + AllOps(at + 1, staged, uuids)
  }

  /** A stored row whose column no longer holds the expected value; a missing row is no conflict. */
  predicate Conflicts(t: Table, u: Update) {
    && u.check.Some?
    && var stored := Prior(t, u.entity);
    && stored.Some?
    && !(u.check.value.column in stored.value.cells && stored.value.cells[u.check.value.column] == u.check.value.expected)
  }

  function ConflictKeys(t: Table, updates: seq<Update>): seq<Key> {
    if updates == [] then []
    else
      var rest := ConflictKeys(t, updates[..|updates| - 1]);
      var u := updates[|updates| - 1];
      if Conflicts(t, u) && u.entity.key.Some? then rest + [u.entity.key.value] else rest
  }

  /** The first schema with conflicts, and their keys. */
  datatype Conflict = Conflict(at: nat, keys: seq<Key>)

  function FirstConflict(store: Store, staged: seq<Changes>, at: nat): Option<Conflict>
    requires |store| == |staged| && at <= |staged|
    decreases |staged| - at
  {
    if at == |staged| then None
    else
      var keys := ConflictKeys(store[at], staged[at].updates);
      if keys != [] then Some(Conflict(at, keys)) else FirstConflict(store, staged, at + 1)
  }

  /** What the environment answers: each load, each save, and each re-save after a failure. */
  datatype Environment = Environment(loads: seq<bool>, saves: seq<bool>, resaves: seq<bool>)

  predicate EnvironmentOk(e: Environment, n: nat) { |e.loads| == n && |e.saves| == n && |e.resaves| == n }

  predicate NeedsLoad(c: Changes) { c.updates != [] || c.removes != [] }

  predicate LoadsFail(staged: seq<Changes>, loads: seq<bool>)
    requires |loads| == |staged|
  {
    exists i | 0 <= i < |staged| :: NeedsLoad(staged[i]) && !loads[i]
  }

  function Saved(t: Table): Table { t.(disk := t.data) }

  function SaveWhere(store: Store, ok: seq<bool>, n: nat): (r: Store)
    requires n <= |store| && |ok| == |store|
    ensures |r| == |store|
    ensures forall i | 0 <= i < |r| :: r[i] == if i < n && ok[i] then Saved(store[i]) else store[i]
  {
    seq(|store|, i requires 0 <= i < |store| => if i < n && ok[i] then Saved(store[i]) else store[i])
  }

  /** The index of the first failing save, or the number of collections. */
  function FirstFailure(saves: seq<bool>, at: nat): (r: nat)
    requires at <= |saves|
    ensures at <= r <= |saves|
    ensures forall i | at <= i < r :: saves[i]
    ensures r < |saves| ==> !saves[r]
    decreases |saves| - at
  {
    if at == |saves| || !saves[at] then at else FirstFailure(saves, at + 1)
  }

  datatype Outcome = Success | LoadFailed | Conflicted(conflict: Conflict) | ApplyFailed | SaveFailed

  datatype Persisted = Persisted(store: Store, outcome: Outcome, done: seq<Done>)

  function AllSaved(n: nat): (r: seq<bool>)
    ensures |r| == n && forall i | 0 <= i < n :: r[i]
  {
    seq(n, _ => true)
  }

  /** Once the mutations are applied or have thrown: save collection by collection, or take them back. */
  function Conclude(applied: Applied, e: Environment): (r: Persisted)
    requires EnvironmentOk(e, |applied.store|)
    requires Within(|applied.store|, applied.done)
    ensures |r.store| == |applied.store| && r.done == applied.done
    ensures r.outcome.Success? || r.outcome.ApplyFailed? || r.outcome.SaveFailed?
  {
    if applied.threw then Persisted(Revert(applied.store, applied.done), ApplyFailed, applied.done)
    else
      var n := FirstFailure(e.saves, 0);
      var saved := SaveWhere(applied.store, AllSaved(|applied.store|), n);
      if n == |applied.store| then Persisted(saved, Success, applied.done)
      else Persisted(SaveWhere(Revert(saved, applied.done), e.resaves, n), SaveFailed, applied.done)
  }

  /** The whole save. */
  function BulkPersist(keyings: seq<Keying>, store: Store, staged: seq<Changes>, uuids: seq<seq<string>>, e: Environment)
    : (r: Persisted)
    requires |keyings| == |store| == |staged| && StagedOk(staged, uuids) && EnvironmentOk(e, |staged|)
    ensures |r.store| == |store|
  {
    if LoadsFail(staged, e.loads) then Persisted(store, LoadFailed, [])
    else
      var conflict := FirstConflict(store, staged, 0);
      if conflict.Some? then Persisted(store, Conflicted(conflict.value), [])
      else Conclude(Apply(keyings, store, AllOps(0, staged, uuids)), e)
  }
}
