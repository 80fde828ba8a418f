/**
 The read-through cache of core/src/plugins/CacheDbPlugin.ts: its insertion-ordered entries, and
 reads and writes through it as steps that may interleave.

 A query is whatever its caller built; the cache sees only a string described from it.
 */
module CacheModel {
  import opened Options

  type SchemaId = string

  const NUL := "\0"

  /** Some results, such as a projection holding a function, cannot be copied and are not kept. */
  datatype Value = Value(content: string, cloneable: bool)

  datatype Entry = Entry(key: string, value: Value)

  function Prefix(schema: SchemaId): string { schema + NUL }

  /** `text` is the described options of a query. */
  function Key(schema: SchemaId, text: string): string { Prefix(schema) + text }

  // ----- the ordered map -----

  function Position(entries: seq<Entry>, key: string): (r: Option<nat>)
    ensures r.Some? ==> r.value < |entries| && entries[r.value].key == key
    ensures r.Some? ==> forall i | r.value < i < |entries| :: entries[i].key != key
    ensures r.None? ==> forall i | 0 <= i < |entries| :: entries[i].key != key
  {
    if entries == [] then None
    else if entries[|entries| - 1].key == key then Some(|entries| - 1)
    else Position(entries[..|entries| - 1], key)
  }

  function Get(entries: seq<Entry>, key: string): Option<Value> {
    var at := Position(entries, key);
    if at.Some? then Some(entries[at.value].value) else None
  }

  function Delete(entries: seq<Entry>, key: string): seq<Entry> {
    var at := Position(entries, key);
    if at.Some? then entries[..at.value] + entries[at.value + 1..] else entries
  }

  /** A known key keeps its place. */
  function Set(entries: seq<Entry>, key: string, value: Value): seq<Entry> {
    var at := Position(entries, key);
    if at.Some? then entries[at.value := Entry(key, value)] else entries + [Entry(key, value)]
  }

  function Hit(entries: seq<Entry>, key: string): seq<Entry> {
    var found := Get(entries, key);
    if found.Some? then Set(Delete(entries, key), key, found.value) else entries
  }

  function Store(entries: seq<Entry>, max: nat, key: string, value: Value): seq<Entry> {
    if !value.cloneable then entries
    else
      var stored := Set(entries, key, value);
      if |stored| > max then stored[1..] else stored
  }

  /** The entries whose key does not start with a schema's prefix. */
  function Dropped(entries: seq<Entry>, schema: SchemaId): seq<Entry> {
    if entries == [] then []
    else
      var rest := Dropped(entries[..|entries| - 1], schema);
      if Prefix(schema) <= entries[|entries| - 1].key then rest else rest + [entries[|entries| - 1]]
  }

  function Invalidated(entries: seq<Entry>, schemas: seq<SchemaId>): seq<Entry> {
    if schemas == [] then entries
    else Dropped(Invalidated(entries, schemas[..|schemas| - 1]), schemas[|schemas| - 1])
  }

  // ----- reads and writes as steps -----

  type Tables = map<SchemaId, string>

  function TableOf(tables: Tables, schema: SchemaId): string { if schema in tables then tables[schema] else "" }

  type Query(==, !new)

  /** `answer` is what the inner plugin answers a query from one table, none an error; `describe` is the cache's own. */
  datatype Inner = Inner(describe: Query -> string, answer: (string, Query) -> Option<Value>)

  function KeyFor(inner: Inner, schema: SchemaId, query: Query): string { Key(schema, inner.describe(query)) }

  /** What the inner plugin would say now. */
  function Truth(inner: Inner, tables: Tables, schema: SchemaId, query: Query): Option<Value> {
    inner.answer(TableOf(tables, schema), query)
  }

  /**
   A miss on its way; `answer` is there once the inner plugin has looked, and `overtaken` says
   whether a write to the schema was committed since.
   */
  datatype Reading = Reading(schema: SchemaId, query: Query, answer: Option<Option<Value>>, overtaken: bool)

  datatype Writing = Writing(touched: seq<SchemaId>)

  datatype State = State(entries: seq<Entry>, tables: Tables, readers: map<nat, Reading>, writes: map<nat, Writing>)

  datatype Step =
    | Ask(id: nat, schema: SchemaId, query: Query)
    | Look(id: nat)
    | Deliver(id: nat)
    | Begin(id: nat, touched: seq<SchemaId>)
    | Commit(id: nat, tables: Tables)
    | End(id: nat)

  /** A step that the protocol allows: a look before a delivery, a commit between begin and end. */
  predicate Enabled(s: State, step: Step) {
    match step
    case Ask(id, schema, _) => id !in s.readers
    case Look(id) => id in s.readers && s.readers[id].answer.None?
    case Deliver(id) => id in s.readers && s.readers[id].answer.Some?
    case Begin(id, _) => id !in s.writes
    case Commit(id, tables) => id in s.writes
    case End(id) => id in s.writes
  }

  /** A write changes no table it does not name. */
  ghost predicate WritesOnly(s: State, id: nat, tables: Tables)
    requires id in s.writes
  {
    forall schema: SchemaId :: schema !in s.writes[id].touched ==> TableOf(tables, schema) == TableOf(s.tables, schema)
  }

  function Overtake(readers: map<nat, Reading>, touched: seq<SchemaId>): map<nat, Reading> {
    map r | r in readers ::
      if readers[r].answer.Some? && readers[r].schema in touched then readers[r].(overtaken := true) else readers[r]
  }

  function Next(inner: Inner, max: nat, s: State, step: Step): State
    requires Enabled(s, step)
  {
    match step
    case Ask(id, schema, query) =>
      var key := KeyFor(inner, schema, query);
      if Get(s.entries, key).Some? then s.(entries := Hit(s.entries, key))
      else s.(readers := s.readers[id := Reading(schema, query, None, false)])
    case Look(id) =>
      var r := s.readers[id];
      s.(readers := s.readers[id := r.(answer := Some(Truth(inner, s.tables, r.schema, r.query)), overtaken := false)])
    case Deliver(id) =>
      s.(readers := s.readers - {id}, entries := Delivered(inner, max, s.entries, s.readers[id]))
    case Begin(id, touched) => s.(entries := Invalidated(s.entries, touched), writes := s.writes[id := Writing(touched)])
    case Commit(id, tables) => s.(tables := tables, readers := Overtake(s.readers, s.writes[id].touched))
    case End(id) => s.(entries := Invalidated(s.entries, s.writes[id].touched), writes := s.writes - {id})
  }

  /** An error is not stored. */
  function Delivered(inner: Inner, max: nat, entries: seq<Entry>, r: Reading): seq<Entry>
    requires r.answer.Some?
  {
    if r.answer.value.None? then entries else Store(entries, max, KeyFor(inner, r.schema, r.query), r.answer.value.value)
  }

  /** What the caller of a read is told at a step, if anything; a miss is told whatever is then stored. */
  function Told(inner: Inner, max: nat, s: State, step: Step): Option<Option<Value>>
    requires Enabled(s, step)
  {
    match step
    case Ask(_, schema, query) =>
      var found := Get(s.entries, KeyFor(inner, schema, query));
      if found.Some? then Some(found) else None
    case Deliver(id) =>
      var r := s.readers[id];
      var stored := Get(Delivered(inner, max, s.entries, r), KeyFor(inner, r.schema, r.query));
      Some(if r.answer.value.Some? && stored.Some? then stored else r.answer.value)
    case _ => None
  }

  // ----- what may go wrong, and when it does not -----

  predicate NoNul(schema: SchemaId) { '\0' !in schema }

  /** Whatever is asked next: a hit tells what the inner plugin would say. */
  ghost predicate Truthful(inner: Inner, tables: Tables, entries: seq<Entry>) {
    forall schema, query | NoNul(schema) && Get(entries, KeyFor(inner, schema, query)).Some? ::
      Get(entries, KeyFor(inner, schema, query)) == Truth(inner, tables, schema, query)
  }

  /** Two queries with one description get one answer, wherever it is one that is kept. */
  ghost predicate SharingIsHarmless(inner: Inner) {
    forall table, p, q | inner.describe(p) == inner.describe(q) && Keepable(inner.answer(table, p)) ::
      inner.answer(table, q) == inner.answer(table, p)
  }

  predicate Keepable(answer: Option<Value>) { answer.Some? && answer.value.cloneable }

  /** A read that no commit overtook holds what the inner plugin would still say. */
  ghost predicate ReadsCurrent(inner: Inner, tables: Tables, readers: map<nat, Reading>) {
    forall r | r in readers ::
      && NoNul(readers[r].schema)
      && (readers[r].answer.Some? && !readers[r].overtaken ==>
            readers[r].answer.value == Truth(inner, tables, readers[r].schema, readers[r].query))
  }

  predicate NothingCached(entries: seq<Entry>, touched: seq<SchemaId>) {
    forall e, schema | e in entries && schema in touched :: !(Prefix(schema) <= e.key)
  }

  /**
   No read's answer is kept after a commit overtook it, and none was kept between a write's
   begin and its commit.
   */
  predicate Quiet(s: State, step: Step)
    requires Enabled(s, step)
  {
    match step
    case Deliver(id) => s.readers[id].overtaken ==> !Keepable(s.readers[id].answer.value)
    case Commit(id, _) => NothingCached(s.entries, s.writes[id].touched)
    case _ => true
  }

  predicate SaneIds(step: Step) {
    match step
    case Ask(_, schema, _) => NoNul(schema)
    case Begin(_, touched) => forall schema | schema in touched :: NoNul(schema)
    case _ => true
  }

  ghost predicate StepOk(s: State, step: Step) {
    && Enabled(s, step) && SaneIds(step)
    && (step.Commit? ==> WritesOnly(s, step.id, step.tables))
  }

  function Run(inner: Inner, max: nat, s: State, steps: seq<Step>): Option<State> {
    if steps == [] then Some(s)
    else
      var before := Run(inner, max, s, steps[..|steps| - 1]);
      if before.Some? && Enabled(before.value, steps[|steps| - 1]) then Some(Next(inner, max, before.value, steps[|steps| - 1])) else None
  }

  /** Every step of the run is one the protocol allows, and no read is in a write's way. */
  ghost predicate RunOk(inner: Inner, max: nat, s: State, steps: seq<Step>) {
    if steps == [] then true
    else
      var before := Run(inner, max, s, steps[..|steps| - 1]);
      && RunOk(inner, max, s, steps[..|steps| - 1]) && before.Some?
      && StepOk(before.value, steps[|steps| - 1]) && Quiet(before.value, steps[|steps| - 1])
  }

  const EMPTY := State([], map[], map[], map[])
}
