/**
 The full-text index of datastore/src/collection-builder/fullTextSearch.ts: the rows a document
 produces, what one save adds to, updates in and removes from the index, and the backend that
 applies it. Ids appear by their string form, which is all the row keys hold of them.
 */
module FullText {
  import opened Options

  datatype Cell = Undefined | Null | Text(text: string)

  type Entity = map<string, Cell>

  function Read(e: Entity, column: string): Cell { if column in e then e[column] else Undefined }

  datatype Field = Field(name: string, column: string)

  /** One entry of the map `countTerms` returns, in insertion order. */
  datatype Count = Count(term: string, frequency: nat)

  type Tokenizer = Cell -> seq<Count>

  datatype Registration = Registration(source: nat, index: nat, fields: seq<Field>, keyColumn: string, count: Tokenizer)

  function SourceId(reg: Registration, e: Entity): Option<string> {
    match Read(e, reg.keyColumn)
    case Text(s) => Some(s)
    case _ => None
  }

  datatype Row = Row(key: string, term: string, field: string, sourceId: string, frequency: nat)

  const BAR := "|"

  function Key(term: string, field: string, id: string): string { term + BAR + field + BAR + id }

  function RowOf(c: Count, field: string, id: string): Row {
    Row(Key(c.term, field, id), c.term, field, id, c.frequency)
  }

  // ----- the rows of one document -----

  function KeysOf(rows: seq<Row>): (r: set<string>)
    ensures forall row | row in rows :: row.key in r
  {
    set row | row in rows :: row.key
  }

  function Position(rows: seq<Row>, key: string): (r: Option<nat>)
    ensures r.Some? ==> r.value < |rows| && rows[r.value].key == key
    ensures r.None? ==> key !in KeysOf(rows)
  {
    if rows == [] then None
    else if rows[|rows| - 1].key == key then Some(|rows| - 1)
    else Position(rows[..|rows| - 1], key)
  }

  function Find(rows: seq<Row>, key: string): (r: Option<Row>)
    ensures r.Some? ==> r.value in rows && r.value.key == key
    ensures r.None? ==> key !in KeysOf(rows)
  {
    var at := Position(rows, key);
    if at.Some? then Some(rows[at.value]) else None
  }

  /** Setting a key of an insertion-ordered map: a known key keeps its place. */
  function Put(rows: seq<Row>, row: Row): seq<Row> {
    var at := Position(rows, row.key);
    if at.Some? then rows[at.value := row] else rows + [row]
  }

  function AddTerms(rows: seq<Row>, counts: seq<Count>, field: string, id: string): seq<Row> {
    if counts == [] then rows
    else Put(AddTerms(rows, counts[..|counts| - 1], field, id), RowOf(counts[|counts| - 1], field, id))
  }

  function BuildRows(fields: seq<Field>, count: Tokenizer, e: Entity, id: string): seq<Row> {
    if fields == [] then []
    else
      var f := fields[|fields| - 1];
      AddTerms(BuildRows(fields[..|fields| - 1], count, e, id), count(Read(e, f.column)), f.name, id)
  }

  // ----- what a save does to the index -----

  datatype Rows = Rows(adds: seq<Row>, updates: seq<Row>, removes: seq<Row>)

  const NO_ROWS := Rows([], [], [])

  function Join(a: Rows, b: Rows): Rows { Rows(a.adds + b.adds, a.updates + b.updates, a.removes + b.removes) }

  /** The fields an update's `previous` names. */
  function Changed(fields: seq<Field>, previous: Entity): (r: seq<Field>)
    ensures forall f :: f in r <==> f in fields && f.column in previous
  {
    if fields == [] then []
    else
      var f := fields[|fields| - 1];
      var r := Changed(fields[..|fields| - 1], previous);
      if f.column in previous then r + [f] else r
  }

  /** Rows that are new or whose frequency moved, in the order of `after`. */
  function Arrivals(before: seq<Row>, after: seq<Row>): Rows {
    if after == [] then NO_ROWS
    else
      var row := after[|after| - 1];
      var r := Arrivals(before, after[..|after| - 1]);
      var known := Find(before, row.key);
      if known.None? then r.(adds := r.adds + [row])
      else if known.value.frequency != row.frequency then r.(updates := r.updates + [row])
      else r
  }

  /** Rows whose key is gone. */
  function Departures(before: seq<Row>, after: seq<Row>): (r: seq<Row>)
    ensures forall row :: row in r <==> row in before && Find(after, row.key).None?
  {
    if before == [] then []
    else
      var row := before[|before| - 1];
      var r := Departures(before[..|before| - 1], after);
      if Find(after, row.key).None? then r + [row] else r
  }

  function Diff(before: seq<Row>, after: seq<Row>): Rows { Arrivals(before, after).(removes := Departures(before, after)) }

  function DiffRows(reg: Registration, previous: Entity, e: Entity, id: string): Rows {
    var changed := Changed(reg.fields, previous);
    if changed == [] then NO_ROWS
    else Diff(BuildRows(changed, reg.count, previous, id), BuildRows(changed, reg.count, e, id))
  }

  datatype Update = Update(entity: Entity, previous: Option<Entity>)

  /** One source collection's part of a save. */
  datatype Documents = Documents(adds: seq<Entity>, updates: seq<Update>, removes: seq<Entity>)

  /** The index rows of adds, leaving out those without an id and those of `skip`. */
  function AddRows(reg: Registration, adds: seq<Entity>, skip: set<string>): seq<Row> {
    if adds == [] then []
    else
      var e := adds[|adds| - 1];
      var before := AddRows(reg, adds[..|adds| - 1], skip);
      var id := SourceId(reg, e);
      if id.None? || id.value in skip then before else before + BuildRows(reg.fields, reg.count, e, id.value)
  }

  function IdsOf(reg: Registration, adds: seq<Entity>): set<string> {
    set e | e in adds && SourceId(reg, e).Some? :: SourceId(reg, e).value
  }

  function UpdateRows(reg: Registration, updates: seq<Update>): Rows {
    if updates == [] then NO_ROWS
    else
      var u := updates[|updates| - 1];
      var before := UpdateRows(reg, updates[..|updates| - 1]);
      var id := SourceId(reg, u.entity);
      if id.None? || u.previous.None? then before
      else Join(before, DiffRows(reg, u.previous.value, u.entity, id.value))
  }

  /** What one save emits for one registration. */
  function Emitted(reg: Registration, d: Documents): Rows {
    var u := UpdateRows(reg, d.updates);
    Rows(AddRows(reg, d.adds, {}) + u.adds, u.updates, u.removes + AddRows(reg, d.removes, {}))
  }

  // ----- the backend -----

  type Index = map<string, Row>

  function Table(rows: seq<Row>): (r: Index)
    ensures r.Keys == KeysOf(rows)
    ensures forall k | k in r :: r[k] in rows && r[k].key == k
  {
    if rows == [] then map[]
    else
      var row := rows[|rows| - 1];
      assert forall r | r in rows :: r in rows[..|rows| - 1] || r == row;
      Table(rows[..|rows| - 1])[row.key := row]
  }

  /** Adds, then updates, then removes. */
  function Patch(index: Index, rows: Rows): Index {
    index + Table(rows.adds) + Table(rows.updates) - KeysOf(rows.removes)
  }

  type Library = map<string, Entity>

  /** One whole save: the documents change, the rows go with them, and the deferred rows follow. */
  datatype Save = Save(documents: Documents, echo: seq<Entity>, landed: bool)

  datatype Store = Store(docs: Library, index: Index)

  function AddAll(reg: Registration, docs: Library, adds: seq<Entity>): Library {
    if adds == [] then docs
    else
      var e := adds[|adds| - 1];
      var id := SourceId(reg, e);
      var before := AddAll(reg, docs, adds[..|adds| - 1]);
      if id.Some? then before[id.value := e] else before
  }

  function UpdateAll(reg: Registration, docs: Library, updates: seq<Update>): Library {
    if updates == [] then docs
    else
      var u := updates[|updates| - 1];
      var id := SourceId(reg, u.entity);
      var before := UpdateAll(reg, docs, updates[..|updates| - 1]);
      if id.Some? then before[id.value := u.entity] else before
  }

  function DocsAfter(reg: Registration, docs: Library, save: Save): Library {
    UpdateAll(reg, AddAll(reg, docs, save.echo), save.documents.updates) - IdsOf(reg, save.documents.removes)
  }

  function DeferredRows(reg: Registration, save: Save): seq<Row> {
    AddRows(reg, save.echo, IdsOf(reg, save.documents.adds))
  }

  /** A save that fails leaves both tables alone. */
  function AfterSave(reg: Registration, s: Store, save: Save): Store {
    if !save.landed then s
    else
      Store(DocsAfter(reg, s.docs, save),
            Patch(Patch(s.index, Emitted(reg, save.documents)), Rows(DeferredRows(reg, save), [], [])))
  }

  function AfterSaves(reg: Registration, s: Store, saves: seq<Save>): Store {
    if saves == [] then s
    else AfterSave(reg, AfterSaves(reg, s, saves[..|saves| - 1]), saves[|saves| - 1])
  }

  // ----- the index from scratch -----

  /** What an index rebuilt from the documents, visited in some order, holds. */
  function Rebuild(reg: Registration, docs: seq<Entity>): seq<Row> {
    if docs == [] then []
    else
      var e := docs[|docs| - 1];
      var id := SourceId(reg, e);
      var before := Rebuild(reg, docs[..|docs| - 1]);
      if id.None? then before else PutAll(before, BuildRows(reg.fields, reg.count, e, id.value))
  }

  function PutAll(rows: seq<Row>, more: seq<Row>): seq<Row> {
    if more == [] then rows else Put(PutAll(rows, more[..|more| - 1]), more[|more| - 1])
  }

  // ----- what the keys need of a declaration -----

  /** What stands before the document's id in a row key. */
  function Code(term: string, field: string): string { term + BAR + field + BAR }

  /** Two different terms or fields, the code of one beginning with the code of the other. */
  predicate Collide(t: string, f: string, t': string, f': string) {
    (t, f) != (t', f') && (Code(t, f) <= Code(t', f') || Code(t', f') <= Code(t, f))
  }

  predicate HasTerm(counts: seq<Count>, term: string) { exists c | c in counts :: c.term == term }

  predicate HasName(fields: seq<Field>, name: string) { exists f | f in fields :: f.name == name }

  /** Some document may give the field the term. */
  ghost predicate Coded(reg: Registration, term: string, field: string) {
    HasName(reg.fields, field) && exists cell :: HasTerm(reg.count(cell), term)
  }

  ghost predicate CodesTell(reg: Registration) {
    forall t, f, t', f' | Coded(reg, t, f) && Coded(reg, t', f') :: !Collide(t, f, t', f')
  }

  predicate DistinctTerms(counts: seq<Count>) {
    forall i, j | 0 <= i < j < |counts| :: counts[i].term != counts[j].term
  }

  predicate DistinctNames(fields: seq<Field>) {
    forall i, j | 0 <= i < j < |fields| :: fields[i].name != fields[j].name
  }

  ghost predicate CountsOnce(count: Tokenizer) {
    forall cell: Cell :: DistinctTerms(count(cell))
  }

  /** Terms and fields are told apart, within a document and by what stands in its row keys. */
  ghost predicate Proper(reg: Registration) {
    DistinctNames(reg.fields) && CountsOnce(reg.count) && CodesTell(reg)
  }

  predicate Clean(s: string) { '|' !in s }

  // ----- what a save must satisfy -----

  predicate SameText(reg: Registration, a: Entity, b: Entity) {
    forall i | 0 <= i < |reg.fields| :: Read(a, reg.fields[i].column) == Read(b, reg.fields[i].column)
  }

  /** `previous` names every indexed column that changed, and holds what was stored. */
  predicate PreviousIsRight(reg: Registration, stored: Entity, previous: Entity, e: Entity) {
    forall i | 0 <= i < |reg.fields| ::
      var c := reg.fields[i].column;
      if c in previous then Read(previous, c) == Read(stored, c) else Read(e, c) == Read(stored, c)
  }

  /** The plugin echoes each add with its key and its text. */
  predicate EchoIsRight(reg: Registration, docs: Library, adds: seq<Entity>, echo: seq<Entity>) {
    && |echo| == |adds|
    && (forall i | 0 <= i < |echo| ::
      && SourceId(reg, echo[i]).Some? && SourceId(reg, echo[i]).value !in docs && SameText(reg, echo[i], adds[i])
      && (SourceId(reg, adds[i]).Some? ==> SourceId(reg, adds[i]) == SourceId(reg, echo[i])))
    && (forall i, j | 0 <= i < j < |echo| :: SourceId(reg, echo[i]) != SourceId(reg, echo[j]))
  }

  predicate UpdatesAreRight(reg: Registration, docs: Library, updates: seq<Update>) {
    && (forall i | 0 <= i < |updates| ::
      var u := updates[i];
      var id := SourceId(reg, u.entity);
      && id.Some? && id.value in docs && u.previous.Some?
      && PreviousIsRight(reg, docs[id.value], u.previous.value, u.entity))
    && (forall i, j | 0 <= i < j < |updates| :: SourceId(reg, updates[i].entity) != SourceId(reg, updates[j].entity))
  }

  predicate RemovesAreRight(reg: Registration, docs: Library, removes: seq<Entity>) {
    && (forall i | 0 <= i < |removes| ::
      var id := SourceId(reg, removes[i]);
      id.Some? && id.value in docs && SameText(reg, removes[i], docs[id.value]))
    && (forall i, j | 0 <= i < j < |removes| :: SourceId(reg, removes[i]) != SourceId(reg, removes[j]))
  }

  /** One kind of change per document, each true to what is stored. */
  predicate SaveIsRight(reg: Registration, docs: Library, save: Save) {
    save.landed ==>
      && EchoIsRight(reg, docs, save.documents.adds, save.echo)
      && UpdatesAreRight(reg, docs, save.documents.updates)
      && RemovesAreRight(reg, docs, save.documents.removes)
      && (forall i, j | 0 <= i < |save.documents.updates| && 0 <= j < |save.documents.removes| ::
        SourceId(reg, save.documents.updates[i].entity) != SourceId(reg, save.documents.removes[j]))
  }

  predicate SavesAreRight(reg: Registration, s: Store, saves: seq<Save>) {
    if saves == [] then true
    else
      && SavesAreRight(reg, s, saves[..|saves| - 1])
      && SaveIsRight(reg, AfterSaves(reg, s, saves[..|saves| - 1]).docs, saves[|saves| - 1])
  }
}
