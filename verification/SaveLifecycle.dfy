/**
 From an edit to a settled save, as datastore/src/change-tracking/ChangeTracker.ts runs it: what
 a save emits for each attached or pending row, what a backend makes of it, and what the echo
 leaves behind. Rows are filed by id and carry root properties under their own names.
 */
module SaveLifecycle {
  import opened Options
  import opened Patch
  import opened ProxyTracking

  datatype ChangeType = NotModified | MarkedDirty | PropertiesChanged

  /** `tracking` is the entity's own record; only diff collections hold a snapshot. */
  datatype Attachment = Attachment(doc: Fields, changeType: ChangeType, tracking: Option<Tracking>, snapshot: Option<Fields>)

  datatype Schema = Schema(roots: set<string>, diff: bool, hash: Fields -> string)

  datatype Tracker = Tracker(attachments: map<string, Attachment>, pending: PendingMap, additions: seq<Fields>, removals: seq<Fields>)

  /** An absent `previous` says nothing was known. */
  datatype EntityUpdate = EntityUpdate(entity: Fields, delta: Fields, changeType: ChangeType, previous: Option<Fields>)

  // ----- what a save emits -----

  predicate SnapshotDirty(schema: Schema, a: Attachment) {
    a.snapshot.Some? && schema.hash(a.doc) != schema.hash(a.snapshot.value)
  }

  predicate TrackingDirty(a: Attachment) { a.tracking.Some? && a.tracking.value.isDirty }

  /** The type before the snapshot is looked at. */
  function BareType(a: Attachment): ChangeType {
    if TrackingDirty(a) then PropertiesChanged else if a.changeType.MarkedDirty? then MarkedDirty else NotModified
  }

  predicate FoundBySnapshot(schema: Schema, a: Attachment) { BareType(a).NotModified? && SnapshotDirty(schema, a) }

  function TypeToSend(schema: Schema, a: Attachment): ChangeType {
    if FoundBySnapshot(schema, a) then PropertiesChanged else BareType(a)
  }

  predicate Dirty(schema: Schema, a: Attachment) { !TypeToSend(schema, a).NotModified? }

  /** The named roots of an entity, and nothing else. */
  function SerializeDelta(schema: Schema, entity: Fields, patch: Fields): Fields {
    map k | k in patch && k in schema.roots :: Read(entity, k)
  }

  function AllRoots(schema: Schema, entity: Fields): Fields { map k | k in schema.roots :: Read(entity, k) }

  function UpdateOf(schema: Schema, a: Attachment): EntityUpdate {
    var found := FoundBySnapshot(schema, a);
    var delta := if found || a.tracking.None? then map[] else SerializeDelta(schema, a.doc, a.tracking.value.changes);
    var restored := if found || a.tracking.None? then None else Restored(a.doc, a.tracking.value.original);
    var previous :=
      if found then AllRoots(schema, a.snapshot.value)
      else if restored.Some? then SerializeDelta(schema, restored.value, a.tracking.value.changes)
      else AllRoots(schema, a.doc);
    EntityUpdate(a.doc, delta, TypeToSend(schema, a), Some(previous))
  }

  function PendingUpdate(schema: Schema, u: Pending): EntityUpdate {
    EntityUpdate(u.current, SerializeDelta(schema, u.current, u.patch), PropertiesChanged,
                 Some(SerializeDelta(schema, u.original, u.patch)))
  }

  /** A pending row speaks for itself; its attachment is not asked. */
  function Emitted(schema: Schema, t: Tracker): map<string, EntityUpdate> {
    (map id | id in t.attachments && id !in t.pending && Dirty(schema, t.attachments[id]) :: UpdateOf(schema, t.attachments[id]))
    + (map id | id in t.pending :: PendingUpdate(schema, t.pending[id]))
  }

  // ----- what a backend makes of it -----

  type Rows = map<string, Fields>

  /** An empty delta means the whole entity. */
  function Land(row: Fields, u: EntityUpdate): Fields {
    if |u.delta| == 0 then u.entity else row + u.delta
  }

  function LandAll(rows: Rows, updates: map<string, EntityUpdate>): Rows {
    map id | id in rows :: if id in updates then Land(rows[id], updates[id]) else rows[id]
  }

  // ----- what the echo leaves -----

  function Attached(schema: Schema, doc: Fields): Attachment {
    Attachment(doc, NotModified, None, if schema.diff then Some(doc) else None)
  }

  function Cleared(t: Tracking): Tracking { t.(changes := map[], original := map[], isDirty := false) }

  /** The echoed values that are not null are copied into the canonical entity. */
  function Adopted(doc: Fields, echo: Fields): Fields { doc + map k | k in echo && !Nullish(echo[k]) :: echo[k] }

  /** The canonical entity after the echo is the new baseline. */
  function Settled(a: Attachment, echo: Fields): Attachment {
    var doc := Adopted(a.doc, echo);
    Attachment(doc, NotModified,
               if a.tracking.Some? then Some(Cleared(a.tracking.value)) else None,
               if a.snapshot.Some? then Some(doc) else None)
  }

  /** A pending row adopts the echo outright. */
  function Merged(schema: Schema, t: Tracker, echo: Rows): Tracker {
    t.(attachments := map id | id in t.attachments ::
      if id !in echo then t.attachments[id]
      else if id in t.pending then Attached(schema, echo[id])
      else Settled(t.attachments[id], echo[id]))
  }

  function ClearChanges(t: Tracker): Tracker { Tracker(t.attachments, map[], [], []) }

  predicate HasAttachmentsChanges(schema: Schema, t: Tracker) {
    exists id | id in t.attachments ::
      TrackingDirty(t.attachments[id]) || !t.attachments[id].changeType.NotModified? || SnapshotDirty(schema, t.attachments[id])
  }

  predicate HasChanges(schema: Schema, t: Tracker) {
    t.additions != [] || t.removals != [] || |t.pending| > 0 || HasAttachmentsChanges(schema, t)
  }

  /** What the caller sees a row to be. */
  function ValueOf(t: Tracker, id: string): Fields
    requires id in t.attachments || id in t.pending
  {
    if id in t.pending then t.pending[id].current else t.attachments[id].doc
  }

  // ----- the tracker against the backend -----

  /** A mutated entity whose content hash is still that of its baseline: nothing else tells of the mutation. */
  ghost predicate Unnoticed(schema: Schema, a: Attachment) {
    a.snapshot.Some? && !Dirty(schema, a) && !SameReading(a.doc, a.snapshot.value)
  }

  /**
   The stored row is this attachment's baseline: a snapshot or an entity without a record reads as
   the row, and a record is well kept, though it need not name all that differs from the row.
   */
  ghost predicate RowInSync(schema: Schema, row: Fields, a: Attachment) {
    && a.doc.Keys <= schema.roots && row.Keys <= schema.roots
    && (a.tracking.Some? ==> a.snapshot.None? && WellKept(Proxied(a.doc, a.tracking)) && a.tracking.value.changes.Keys <= schema.roots)
    && (a.snapshot.Some? ==> SameReading(a.snapshot.value, row))
    && (a.tracking.None? && a.snapshot.None? ==> SameReading(a.doc, row))
  }

  ghost predicate InSync(schema: Schema, t: Tracker, rows: Rows) {
    && (forall id | id in rows :: rows[id].Keys <= schema.roots)
    && (forall id | id in t.attachments :: id in rows && RowInSync(schema, rows[id], t.attachments[id]))
    && (forall id | id in t.pending ::
      id in t.attachments && t.pending[id].patch.Keys <= schema.roots && t.pending[id].current.Keys <= schema.roots)
  }

  // ----- what a save leaves unsaved -----

  /** A proxied entity differs from its row at a property its record does not name; with an empty record, a mark sends it whole. */
  ghost predicate Unrecorded(row: Fields, a: Attachment) {
    && a.tracking.Some? && (a.tracking.value.changes == map[] ==> !a.changeType.MarkedDirty?)
    && exists k :: UnrecordedAt(row, a, k)
  }

  predicate UnrecordedAt(row: Fields, a: Attachment, k: string)
    requires a.tracking.Some?
  {
    !RecordedAt(row, Proxied(a.doc, a.tracking), k)
  }

  /** A pending row differs from its stored one at a property its patch does not name; an empty patch sends it whole. */
  ghost predicate Unpatched(row: Fields, u: Pending) {
    u.patch != map[] && exists k :: UnpatchedAt(row, u, k)
  }

  predicate UnpatchedAt(row: Fields, u: Pending, k: string) { k !in u.patch && Read(row, k) != Read(u.current, k) }

  /** A save does not store the row as its caller sees it. */
  ghost predicate Unsaved(schema: Schema, row: Fields, t: Tracker, id: string)
    requires id in t.attachments
  {
    if id in t.pending then Unpatched(row, t.pending[id])
    else Unnoticed(schema, t.attachments[id]) || Unrecorded(row, t.attachments[id])
  }

  /**
   After a save the caller sees the stored row: a pending row adopts it outright, and an entity
   that was sent adopts all of it that is not null.
   */
  ghost predicate SeesTheRow(schema: Schema, row: Fields, t: Tracker, id: string)
    requires id in t.attachments
  {
    var a := t.attachments[id];
    || id in t.pending
    || !Unsaved(schema, row, t, id)
    || (Dirty(schema, a) && a.tracking.Some? && forall k | UnrecordedAt(row, a, k) :: !Nullish(Read(row, k)))
  }

  // ----- edits between saves -----

  datatype Edit =
    | Write(id: string, key: string, value: Value)
    | Mutate(id: string, doc: Fields)
    | MarkDirty(id: string)
    | Update(id: string, recipe: Recipe)
    | Attach(id: string)
    | Discard
    | Save

  datatype World = World(tracker: Tracker, rows: Rows)

  /** An edit of a row that is not attached does nothing. */
  function AfterEdit(schema: Schema, w: World, e: Edit): World {
    var t := w.tracker;
    match e
    case Write(id, key, value) =>
      if id !in t.attachments then w else
      var p := Written(Proxied(t.attachments[id].doc, t.attachments[id].tracking), key, value);
      w.(tracker := WithAttachment(t, id, t.attachments[id].(doc := p.values, tracking := p.tracking)))
    case Mutate(id, doc) =>
      if id !in t.attachments then w else w.(tracker := WithAttachment(t, id, t.attachments[id].(doc := doc)))
    case MarkDirty(id) =>
      if id !in t.attachments then w else w.(tracker := WithAttachment(t, id, t.attachments[id].(changeType := MarkedDirty)))
    case Update(id, recipe) =>
      if id !in t.attachments then w
      else w.(tracker := t.(pending := After(t.pending, Op.Update(id, recipe, Some(t.attachments[id].doc)))))
    case Attach(id) =>
      if id !in w.rows then w else w.(tracker := WithAttachment(t, id, Attached(schema, w.rows[id])))
    case Discard => w.(tracker := ClearChanges(t))
    case Save => Saved(schema, w)
  }

  function WithAttachment(t: Tracker, id: string, a: Attachment): Tracker { t.(attachments := t.attachments[id := a]) }

  /** The backend lands the updates and echoes every row it wrote; the tracker merges and clears. */
  function Saved(schema: Schema, w: World): World { SettledLate(schema, w, w.tracker) }

  /** The echo finds the tracker as it is by then, `now`, which edits may have changed since it was sent. */
  function SettledLate(schema: Schema, sent: World, now: Tracker): World {
    var rows := LandAll(sent.rows, Emitted(schema, sent.tracker));
    World(ClearChanges(Merged(schema, now, Echo(schema, sent))), rows)
  }

  function Echo(schema: Schema, w: World): Rows {
    var updates := Emitted(schema, w.tracker);
    map id | id in updates && id in w.rows :: LandAll(w.rows, updates)[id]
  }

  /** Proxies are written, snapshotted entities mutated, and nobody gives an entity properties its schema does not have. */
  predicate EditOk(schema: Schema, w: World, e: Edit) {
    var t := w.tracker;
    match e
    case Write(id, key, value) => id in t.attachments && t.attachments[id].snapshot.None? && key in schema.roots
    case Mutate(id, doc) => id in t.attachments && t.attachments[id].snapshot.Some? && doc.Keys <= schema.roots
    case MarkDirty(id) => id in t.attachments
    case Update(id, recipe) =>
      && id in t.attachments
      && var base := ValueOf(t, id);
      Next(base, recipe).Keys <= schema.roots && Delta(base, recipe).Keys <= schema.roots
    case Attach(id) => id in w.rows && id !in t.attachments
    case Discard => true
    case Save => true
  }

  function AfterEdits(schema: Schema, w: World, edits: seq<Edit>): World {
    if edits == [] then w
    else AfterEdit(schema, AfterEdits(schema, w, edits[..|edits| - 1]), edits[|edits| - 1])
  }

  predicate RunOk(schema: Schema, w: World, edits: seq<Edit>) {
    if edits == [] then true
    else
      && RunOk(schema, w, edits[..|edits| - 1])
      && EditOk(schema, AfterEdits(schema, w, edits[..|edits| - 1]), edits[|edits| - 1])
  }

  // ----- a save converges -----

  /** What a save leaves alone is as stored, save for what nothing noticed or recorded. */
  lemma {:induction false} CleanMeansStoredIff(schema: Schema, row: Fields, a: Attachment)
    requires RowInSync(schema, row, a) && !Dirty(schema, a)
    ensures SameReading(a.doc, row) <==> !(Unnoticed(schema, a) || Unrecorded(row, a))
  {
    if a.tracking.Some? {
      assert a.tracking.value.original == map[] == a.tracking.value.changes;
      SameUnlessUnrecorded(row, a);
    } else if a.snapshot.Some? {
      assert SameReading(a.doc, row) <==> SameReading(a.doc, a.snapshot.value);
    }
  }

  lemma {:induction false} SameUnlessUnrecorded(row: Fields, a: Attachment)
    requires a.tracking.Some? && a.tracking.value.changes == map[]
    ensures SameReading(a.doc, row) <==> forall k :: !UnrecordedAt(row, a, k)
  {
    forall k
      ensures UnrecordedAt(row, a, k) <==> Read(row, k) != Read(a.doc, k)
    {
    }
    if SameReading(a.doc, row) {
      assert forall k :: Read(a.doc, k) == Read(row, k);
    }
  }

  /** The emitted update carries the stored row to the attached value, exactly when the record names all that differs. */
  lemma {:induction false} AttachmentConvergesIff(schema: Schema, row: Fields, a: Attachment)
    requires RowInSync(schema, row, a) && Dirty(schema, a)
    ensures !Unnoticed(schema, a)
    ensures SameReading(Land(row, UpdateOf(schema, a)), a.doc) <==> !Unrecorded(row, a)
  {
    var delta := UpdateOf(schema, a).delta;
    if a.tracking.Some? && a.tracking.value.changes != map[] {
      SentDelta(schema, row, a);
      hide UpdateOf, RowInSync;
      LandedIff(row, a, delta);
    } else {
      assert delta == map[];
    }
  }

  lemma {:induction false} LandedIff(row: Fields, a: Attachment, delta: Fields)
    requires a.tracking.Some? && delta.Keys == a.tracking.value.changes.Keys && forall k | k in delta :: delta[k] == Read(a.doc, k)
    ensures SameReading(row + delta, a.doc) <==> forall k :: !UnrecordedAt(row, a, k)
  {
    forall k
      ensures Read(row + delta, k) != Read(a.doc, k) <==> UnrecordedAt(row, a, k)
    {
    }
    hide UnrecordedAt;
    if SameReading(row + delta, a.doc) {
      forall k
        ensures !UnrecordedAt(row, a, k)
      {
        assert Read(row + delta, k) == Read(a.doc, k);
      }
    }
  }

  lemma {:induction false} SentDelta(schema: Schema, row: Fields, a: Attachment)
    requires RowInSync(schema, row, a) && Dirty(schema, a) && a.tracking.Some? && a.tracking.value.changes != map[]
    ensures var delta := UpdateOf(schema, a).delta;
      && delta.Keys == a.tracking.value.changes.Keys && |delta| > 0
      && forall k | k in delta :: delta[k] == Read(a.doc, k)
  {
    var k :| k in a.tracking.value.changes;
    assert k in a.tracking.value.original;
    assert k in UpdateOf(schema, a).delta;
  }

  lemma {:induction false} PendingConvergesIff(schema: Schema, row: Fields, u: Pending)
    requires u.patch.Keys <= schema.roots
    ensures SameReading(Land(row, PendingUpdate(schema, u)), u.current) <==> !Unpatched(row, u)
  {
    var delta := PendingUpdate(schema, u).delta;
    assert delta.Keys == u.patch.Keys;
    if u.patch != map[] {
      var some :| some in u.patch;
      assert some in delta;
      forall k
        ensures Read(row + delta, k) != Read(u.current, k) <==> UnpatchedAt(row, u, k)
      {
      }
      hide UnpatchedAt;
      if SameReading(row + delta, u.current) {
        forall k
          ensures !UnpatchedAt(row, u, k)
        {
          assert Read(row + delta, k) == Read(u.current, k);
        }
      }
    } else {
      assert delta == map[];
    }
  }

  lemma {:induction false} EmittedAt(schema: Schema, t: Tracker, id: string)
    ensures id in t.pending ==> id in Emitted(schema, t) && Emitted(schema, t)[id] == PendingUpdate(schema, t.pending[id])
    ensures id !in t.pending && id in t.attachments && Dirty(schema, t.attachments[id]) ==>
      id in Emitted(schema, t) && Emitted(schema, t)[id] == UpdateOf(schema, t.attachments[id])
    ensures id !in t.pending && !(id in t.attachments && Dirty(schema, t.attachments[id])) ==> id !in Emitted(schema, t)
  {
  }

  /** A row ends stored as the caller saw it, exactly when nothing of it goes unsaved in the mode that speaks for it. */
  lemma {:induction false} RowConvergesIff(schema: Schema, w: World, id: string)
    requires InSync(schema, w.tracker, w.rows) && id in w.tracker.attachments
    ensures id in Saved(schema, w).rows
    ensures SameReading(Saved(schema, w).rows[id], ValueOf(w.tracker, id)) <==> !Unsaved(schema, w.rows[id], w.tracker, id)
  {
    var t := w.tracker;
    EmittedAt(schema, t, id);
    assert Saved(schema, w).rows == LandAll(w.rows, Emitted(schema, t));
    if id in t.pending {
      PendingConvergesIff(schema, w.rows[id], t.pending[id]);
    } else if Dirty(schema, t.attachments[id]) {
      AttachmentConvergesIff(schema, w.rows[id], t.attachments[id]);
    } else {
      CleanMeansStoredIff(schema, w.rows[id], t.attachments[id]);
      assert SameReading(t.attachments[id].doc, w.rows[id]) <==> SameReading(w.rows[id], t.attachments[id].doc);
    }
  }

  /** A save stores every attached and pending row as the caller saw it, exactly when nothing goes unsaved. */
  lemma {:induction false} SaveConvergesIff(schema: Schema, w: World)
    requires InSync(schema, w.tracker, w.rows)
    ensures w.tracker.attachments.Keys <= Saved(schema, w).rows.Keys
    ensures AllStored(schema, w) <==> forall id | id in w.tracker.attachments :: !Unsaved(schema, w.rows[id], w.tracker, id)
  {
    forall id | id in w.tracker.attachments
      ensures id in Saved(schema, w).rows
      ensures SameReading(Saved(schema, w).rows[id], ValueOf(w.tracker, id)) <==> !Unsaved(schema, w.rows[id], w.tracker, id)
    {
      RowConvergesIff(schema, w, id);
    }
  }

  ghost predicate AllStored(schema: Schema, w: World) {
    forall id | id in w.tracker.attachments && id in Saved(schema, w).rows ::
      SameReading(Saved(schema, w).rows[id], ValueOf(w.tracker, id))
  }

  // ----- a save settles -----

  /** After the echo nothing is left to send, exactly when every dirty attachment was echoed. */
  lemma {:induction false} NothingLeftIff(schema: Schema, t: Tracker, echo: Rows)
    ensures Emitted(schema, ClearChanges(Merged(schema, t, echo))) == map[] <==>
      forall id | id in t.attachments && Dirty(schema, t.attachments[id]) :: id in echo
  {
    var after := ClearChanges(Merged(schema, t, echo));
    forall id | id in t.attachments
      ensures Dirty(schema, after.attachments[id]) <==> Dirty(schema, t.attachments[id]) && id !in echo
    {
    }
    var left := Emitted(schema, after);
    if left == map[] {
      forall id | id in t.attachments && Dirty(schema, t.attachments[id])
        ensures id in echo
      {
        assert id !in left;
      }
    } else {
      var id :| id in left;
      assert Dirty(schema, after.attachments[id]);
    }
  }

  /** `hasChanges` looks at a type that the emission does not: one given at attach time and never sent. */
  predicate Sticky(schema: Schema, a: Attachment) { a.changeType.PropertiesChanged? && !Dirty(schema, a) }

  lemma {:induction false} HasChangesAgreesIff(schema: Schema, t: Tracker)
    ensures (HasAttachmentsChanges(schema, ClearChanges(t)) <==> Emitted(schema, ClearChanges(t)) != map[]) <==>
      ((exists id | id in t.attachments :: Dirty(schema, t.attachments[id])) || forall id | id in t.attachments :: !Sticky(schema, t.attachments[id]))
  {
    var left := Emitted(schema, ClearChanges(t));
    if id :| id in t.attachments && Dirty(schema, t.attachments[id]) {
      assert id in left;
    } else {
      assert left == map[];
      forall id | id in t.attachments
        ensures Sticky(schema, t.attachments[id]) <==>
          (var a := t.attachments[id]; TrackingDirty(a) || !a.changeType.NotModified? || SnapshotDirty(schema, a))
      {
        assert !Dirty(schema, t.attachments[id]);
      }
    }
  }

  predicate NothingSticky(t: Tracker) {
    forall id | id in t.attachments :: !t.attachments[id].changeType.PropertiesChanged?
  }

  /** With a complete echo and no sticky type, a save leaves nothing pending by either account. */
  lemma {:induction false} SaveSettles(schema: Schema, w: World)
    requires InSync(schema, w.tracker, w.rows) && NothingSticky(w.tracker)
    ensures var t := Saved(schema, w).tracker;
      Emitted(schema, t) == map[] && !HasChanges(schema, t) && NothingSticky(t)
  {
    var t := w.tracker;
    var echo := Echo(schema, w);
    NothingLeftIff(schema, t, echo);
    HasChangesAgreesIff(schema, Merged(schema, t, echo));
    var after := Merged(schema, t, echo);
    forall id | id in t.attachments
      ensures !Dirty(schema, after.attachments[id]) && !after.attachments[id].changeType.PropertiesChanged?
    {
      assert Dirty(schema, t.attachments[id]) ==> id in Emitted(schema, t);
    }
  }

  // ----- every run -----

  /** An entity sent whole reads as its row after the echo. */
  lemma {:induction false} AdoptedWhole(doc: Fields)
    ensures SameReading(Adopted(doc, doc), doc)
  {
  }

  lemma {:induction false} SettledRowInSync(schema: Schema, row: Fields, a: Attachment)
    requires RowInSync(schema, row, a) && Dirty(schema, a)
    requires Land(row, UpdateOf(schema, a)).Keys <= schema.roots
    ensures RowInSync(schema, Land(row, UpdateOf(schema, a)), Settled(a, Land(row, UpdateOf(schema, a))))
  {
    if a.tracking.None? {
      assert UpdateOf(schema, a).delta == map[];
      AdoptedWhole(a.doc);
    }
  }

  /** What a save makes of an attached row and of its attachment. */
  lemma {:induction false} SavedAt(schema: Schema, w: World, id: string)
    requires InSync(schema, w.tracker, w.rows) && id in w.tracker.attachments
    ensures var t, after := w.tracker, Saved(schema, w);
      && id in after.rows && id in after.tracker.attachments && after.rows[id] == LandAll(w.rows, Emitted(schema, t))[id]
      && (if id in t.pending then after.tracker.attachments[id] == Attached(schema, after.rows[id])
          else if Dirty(schema, t.attachments[id]) then
            && after.rows[id] == Land(w.rows[id], UpdateOf(schema, t.attachments[id]))
            && after.tracker.attachments[id] == Settled(t.attachments[id], after.rows[id])
          else after.tracker.attachments[id] == t.attachments[id] && after.rows[id] == w.rows[id])
  {
    EmittedAt(schema, w.tracker, id);
    hide Settled, UpdateOf, Land, Emitted, RowInSync, Dirty, PendingUpdate;
  }

  lemma {:induction false} SavedRowInSync(schema: Schema, w: World, id: string)
    requires InSync(schema, w.tracker, w.rows) && id in w.tracker.attachments
    ensures var after := Saved(schema, w);
      id in after.rows && RowInSync(schema, after.rows[id], after.tracker.attachments[id])
  {
    var t := w.tracker;
    var after := Saved(schema, w);
    EmittedAt(schema, t, id);
    LandKeepsRoots(schema, w, id);
    SavedAt(schema, w, id);
    hide Saved, Emitted, LandAll, InSync, Echo;
    if id !in t.pending && Dirty(schema, t.attachments[id]) {
      hide RowInSync, Settled, UpdateOf, Land;
      SettledRowInSync(schema, w.rows[id], t.attachments[id]);
    }
  }

  lemma {:induction false} LandKeepsRoots(schema: Schema, w: World, id: string)
    requires InSync(schema, w.tracker, w.rows) && id in w.rows
    ensures LandAll(w.rows, Emitted(schema, w.tracker))[id].Keys <= schema.roots
  {
  }

  /** Each edit, a save among them, keeps the stored rows the tracker's baseline. */
  lemma {:induction false} EditKeepsInSync(schema: Schema, w: World, e: Edit)
    requires InSync(schema, w.tracker, w.rows) && EditOk(schema, w, e)
    ensures var after := AfterEdit(schema, w, e); InSync(schema, after.tracker, after.rows)
  {
    var t := w.tracker;
    match e {
      case Write(id, key, value) => WriteKeepsInSync(schema, w, id, key, value);
      case Mutate(id, doc) =>
      case MarkDirty(id) => MarkKeepsInSync(schema, w, id);
      case Update(id, recipe) => UpdateKeepsInSync(schema, w, id, recipe);
      case Attach(id) =>
      case Discard =>
      case Save => SaveKeepsInSync(schema, w);
    }
  }

  lemma {:induction false} WriteKeepsInSync(schema: Schema, w: World, id: string, key: string, value: Value)
    requires InSync(schema, w.tracker, w.rows) && EditOk(schema, w, Edit.Write(id, key, value))
    ensures var after := AfterEdit(schema, w, Edit.Write(id, key, value)); InSync(schema, after.tracker, after.rows)
  {
    var a := w.tracker.attachments[id];
    var p := Written(Proxied(a.doc, a.tracking), key, value);
    var a' := a.(doc := p.values, tracking := p.tracking);
    WrittenRowInSync(schema, w.rows[id], a, key, value);
    hide RowInSync;
    assert AfterEdit(schema, w, Edit.Write(id, key, value)) == w.(tracker := WithAttachment(w.tracker, id, a'));
    hide Written, AfterEdit, EditOk;
  }

  lemma {:induction false} WrittenRowInSync(schema: Schema, row: Fields, a: Attachment, key: string, value: Value)
    requires RowInSync(schema, row, a) && a.snapshot.None? && key in schema.roots
    ensures var p := Written(Proxied(a.doc, a.tracking), key, value);
      RowInSync(schema, row, a.(doc := p.values, tracking := p.tracking))
  {
    var p := Proxied(a.doc, a.tracking);
    WriteKeepsItWell(p, key, value);
    WriteStaysWithin(p, key, value);
    hide Written, WellKept, SameReading;
    var p' := Written(p, key, value);
    if p'.tracking.Some? {
      assert TrackingOf(p).changes.Keys <= schema.roots;
      assert p'.tracking.value.changes.Keys <= schema.roots;
      hide TrackingOf;
    } else {
      assert p' == p;
    }
  }

  lemma {:induction false} WriteStaysWithin(p: Proxied, key: string, value: Value)
    ensures Written(p, key, value).values.Keys <= p.values.Keys + {key}
    ensures Written(p, key, value).tracking.None? ==> Written(p, key, value) == p
  {
    hide Record;
  }

  lemma {:induction false} MarkKeepsInSync(schema: Schema, w: World, id: string)
    requires InSync(schema, w.tracker, w.rows) && EditOk(schema, w, MarkDirty(id))
    ensures var after := AfterEdit(schema, w, MarkDirty(id)); InSync(schema, after.tracker, after.rows)
  {
  }

  lemma {:induction false} UpdateKeepsInSync(schema: Schema, w: World, id: string, recipe: Recipe)
    requires InSync(schema, w.tracker, w.rows) && EditOk(schema, w, Edit.Update(id, recipe))
    ensures var after := AfterEdit(schema, w, Edit.Update(id, recipe)); InSync(schema, after.tracker, after.rows)
  {
    var t := w.tracker;
    assert ValueOf(t, id) == Base(Lookup(t.pending, id), Some(t.attachments[id].doc)).value;
    hide RowInSync;
  }

  lemma {:induction false} SaveKeepsInSync(schema: Schema, w: World)
    requires InSync(schema, w.tracker, w.rows)
    ensures var after := Saved(schema, w); InSync(schema, after.tracker, after.rows)
  {
    var after := Saved(schema, w);
    forall id | id in after.tracker.attachments
      ensures id in after.rows && RowInSync(schema, after.rows[id], after.tracker.attachments[id])
    {
      SavedRowInSync(schema, w, id);
    }
    forall id | id in after.rows
      ensures after.rows[id].Keys <= schema.roots
    {
      LandKeepsRoots(schema, w, id);
    }
  }

  /**
   The main result: along every run of edits in any modes, nulls and dropped keys included, a save
   stores each row as its caller saw it exactly when nothing of it goes unsaved, the caller sees
   the stored row afterwards exactly as `SeesTheRow` says, and nothing is left to send.
   */
  lemma {:induction false} LifecycleConverges(schema: Schema, rows: Rows, edits: seq<Edit>)
    requires forall id | id in rows :: rows[id].Keys <= schema.roots
    requires RunOk(schema, World(Tracker(map[], map[], [], []), rows), edits)
    ensures var w := AfterEdits(schema, World(Tracker(map[], map[], [], []), rows), edits);
      var after := Saved(schema, w);
      && InSync(schema, w.tracker, w.rows)
      && (forall id | id in w.tracker.attachments :: id in after.rows && ConvergesIffSaved(schema, w, id))
      && Emitted(schema, after.tracker) == map[] && !HasChanges(schema, after.tracker)
  {
    var start := World(Tracker(map[], map[], [], []), rows);
    var w := AfterEdits(schema, start, edits);
    RunKeepsInSync(schema, start, edits);
    SaveSettles(schema, w);
    forall id | id in w.tracker.attachments
      ensures id in Saved(schema, w).rows && ConvergesIffSaved(schema, w, id)
    {
      RowConvergesIff(schema, w, id);
      RowSettlesIff(schema, w, id);
    }
  }

  ghost predicate ConvergesIffSaved(schema: Schema, w: World, id: string)
    requires id in w.tracker.attachments && id in w.rows && id in Saved(schema, w).rows
  {
    var after := Saved(schema, w);
    && (SameReading(after.rows[id], ValueOf(w.tracker, id)) <==> !Unsaved(schema, w.rows[id], w.tracker, id))
    && (SameReading(ValueOf(after.tracker, id), after.rows[id]) <==> SeesTheRow(schema, w.rows[id], w.tracker, id))
  }

  lemma {:induction false} RowSettlesIff(schema: Schema, w: World, id: string)
    requires InSync(schema, w.tracker, w.rows) && id in w.tracker.attachments
    ensures var after := Saved(schema, w);
      && id in after.rows
      && (SameReading(ValueOf(after.tracker, id), after.rows[id]) <==> SeesTheRow(schema, w.rows[id], w.tracker, id))
  {
    var t := w.tracker;
    var after := Saved(schema, w);
    SavedAt(schema, w, id);
    assert ClearChanges(Merged(schema, t, Echo(schema, w))).pending == map[];
    hide Emitted, LandAll, Echo;
    if id in t.pending {
      hide Saved, InSync, Merged, RowInSync;
    } else if Dirty(schema, t.attachments[id]) {
      hide Saved, InSync, Merged;
      SentRowSettlesIff(schema, w.rows[id], t.attachments[id]);
    } else {
      CleanMeansStoredIff(schema, w.rows[id], t.attachments[id]);
    }
  }

  lemma {:induction false} SentRowSettlesIff(schema: Schema, row: Fields, a: Attachment)
    requires RowInSync(schema, row, a) && Dirty(schema, a)
    ensures var row' := Land(row, UpdateOf(schema, a));
      SameReading(Settled(a, row').doc, row') <==>
        !Unrecorded(row, a) || (a.tracking.Some? && forall k | UnrecordedAt(row, a, k) :: !Nullish(Read(row, k)))
    ensures !Unnoticed(schema, a)
  {
    var row' := Land(row, UpdateOf(schema, a));
    AttachmentConvergesIff(schema, row, a);
    if a.tracking.Some? && a.tracking.value.changes != map[] {
      SentDelta(schema, row, a);
      AdoptedIff(row, a, row');
    } else {
      assert UpdateOf(schema, a).delta == map[];
      AdoptedWhole(a.doc);
    }
  }

  lemma {:induction false} AdoptedIff(row: Fields, a: Attachment, row': Fields)
    requires a.tracking.Some?
    requires forall k :: Read(row', k) == if k in a.tracking.value.changes then Read(a.doc, k) else Read(row, k)
    ensures SameReading(Adopted(a.doc, row'), row') <==> forall k | UnrecordedAt(row, a, k) :: !Nullish(Read(row, k))
  {
    forall k
      ensures Read(Adopted(a.doc, row'), k) == Read(row', k) <==> !(UnrecordedAt(row, a, k) && Nullish(Read(row, k)))
    {
    }
    var adopted := Adopted(a.doc, row');
    hide Adopted, UnrecordedAt, Nullish;
    if SameReading(adopted, row') {
      forall k | UnrecordedAt(row, a, k)
        ensures !Nullish(Read(row, k))
      {
        assert Read(adopted, k) == Read(row', k);
      }
    }
  }

  lemma {:induction false} RunKeepsInSync(schema: Schema, start: World, edits: seq<Edit>)
    requires InSync(schema, start.tracker, start.rows) && NothingSticky(start.tracker)
    requires RunOk(schema, start, edits)
    ensures var w := AfterEdits(schema, start, edits); InSync(schema, w.tracker, w.rows) && NothingSticky(w.tracker)
  {
    hide InSync, AfterEdit, EditOk;
    if edits != [] {
      var w := AfterEdits(schema, start, edits[..|edits| - 1]);
      RunKeepsInSync(schema, start, edits[..|edits| - 1]);
      EditKeepsInSync(schema, w, edits[|edits| - 1]);
      NothingBecomesSticky(schema, w, edits[|edits| - 1]);
    }
  }

  lemma {:induction false} NothingBecomesSticky(schema: Schema, w: World, e: Edit)
    requires NothingSticky(w.tracker)
    ensures NothingSticky(AfterEdit(schema, w, e).tracker)
  {
  }

  // ----- what the proxy's record does not name -----

  /** Without snapshots there is no hash to trust: every row converges exactly when records and patches name all that differs. */
  lemma {:induction false} ProxySchemasConvergeIff(schema: Schema, rows: Rows, edits: seq<Edit>)
    requires !schema.diff && forall id | id in rows :: rows[id].Keys <= schema.roots
    requires RunOk(schema, World(Tracker(map[], map[], [], []), rows), edits)
    ensures var w := AfterEdits(schema, World(Tracker(map[], map[], [], []), rows), edits);
      && w.tracker.attachments.Keys <= w.rows.Keys
      && (AllStored(schema, w) <==>
          forall id | id in w.tracker.attachments ::
            if id in w.tracker.pending then !Unpatched(w.rows[id], w.tracker.pending[id])
            else !Unrecorded(w.rows[id], w.tracker.attachments[id]))
  {
    var start := World(Tracker(map[], map[], [], []), rows);
    var w := AfterEdits(schema, start, edits);
    RunKeepsInSync(schema, start, edits);
    NoSnapshotEver(schema, start, edits);
    SaveConvergesIff(schema, w);
    forall id | id in w.tracker.attachments
      ensures !Unnoticed(schema, w.tracker.attachments[id])
    {
    }
    hide AfterEdits, RunOk, AllStored, Unpatched, Unrecorded;
  }

  predicate NoSnapshots(t: Tracker) { forall id | id in t.attachments :: t.attachments[id].snapshot.None? }

  lemma {:induction false} NoSnapshotEver(schema: Schema, start: World, edits: seq<Edit>)
    requires !schema.diff && NoSnapshots(start.tracker)
    ensures NoSnapshots(AfterEdits(schema, start, edits).tracker)
  {
    if edits != [] {
      NoSnapshotEver(schema, start, edits[..|edits| - 1]);
      NoSnapshotNext(schema, AfterEdits(schema, start, edits[..|edits| - 1]), edits[|edits| - 1]);
    }
  }

  lemma {:induction false} NoSnapshotNext(schema: Schema, w: World, e: Edit)
    requires !schema.diff && NoSnapshots(w.tracker)
    ensures NoSnapshots(AfterEdit(schema, w, e).tracker)
  {
    hide Emitted, LandAll, Written, After;
  }

  /** An entity attached and then written to. */
  function WritesOf(id: string, writes: seq<ProxyTracking.Write>): seq<Edit> {
    if writes == [] then [Attach(id)]
    else WritesOf(id, writes[..|writes| - 1]) + [Edit.Write(id, writes[|writes| - 1].key, writes[|writes| - 1].value)]
  }

  function AttachedAs(p: Proxied): Attachment { Attachment(p.values, NotModified, p.tracking, None) }

  /** Edits through the proxy are the trap's writes. */
  lemma {:induction false} EditsAreWrites(schema: Schema, row: Fields, id: string, writes: seq<ProxyTracking.Write>)
    requires !schema.diff && forall i | 0 <= i < |writes| :: writes[i].key in schema.roots
    ensures var start := World(Tracker(map[], map[], [], []), map[id := row]);
      && RunOk(schema, start, WritesOf(id, writes))
      && AfterEdits(schema, start, WritesOf(id, writes)) ==
           start.(tracker := WithAttachment(start.tracker, id, AttachedAs(AfterWrites(Proxied(row, None), writes))))
  {
    var start := World(Tracker(map[], map[], [], []), map[id := row]);
    var edits := WritesOf(id, writes);
    assert edits[..|edits| - 1] == if writes == [] then [] else WritesOf(id, writes[..|writes| - 1]);
    if writes != [] {
      var n := |writes| - 1;
      EditsAreWrites(schema, row, id, writes[..n]);
      assert edits[|edits| - 1] == Edit.Write(id, writes[n].key, writes[n].value);
    } else {
      assert AfterEdits(schema, start, []) == start && RunOk(schema, start, []);
      assert edits == [Attach(id)] && [Attach(id)][..0] == [];
    }
  }

  /** Along every run of writes, the entity is stored as its caller sees it exactly when each property's last write stays recorded. */
  lemma {:induction false} WrittenRowIsStoredIff(schema: Schema, row: Fields, id: string, writes: seq<ProxyTracking.Write>)
    requires !schema.diff && row.Keys <= schema.roots && forall i | 0 <= i < |writes| :: writes[i].key in schema.roots
    ensures var w := AfterEdits(schema, World(Tracker(map[], map[], [], []), map[id := row]), WritesOf(id, writes));
      && id in w.tracker.attachments && id in Saved(schema, w).rows
      && (SameReading(Saved(schema, w).rows[id], ValueOf(w.tracker, id)) <==> LastWritesRecord(row, Proxied(row, None), writes))
  {
    var start := World(Tracker(map[], map[], [], []), map[id := row]);
    var w := AfterEdits(schema, start, WritesOf(id, writes));
    EditsAreWrites(schema, row, id, writes);
    RunKeepsInSync(schema, start, WritesOf(id, writes));
    RowConvergesIff(schema, w, id);
    RunRecordsIff(row, writes);
    var p := AfterWrites(Proxied(row, None), writes);
    RunKeepsItWell(Proxied(row, None), writes);
    hide AfterEdits, AfterWrites, RunOk, InSync, LastWritesRecord, Saved;
    UntrackedIsUnchanged(row, writes);
    RecordedIff(row, p);
  }

  lemma {:induction false} UntrackedIsUnchanged(row: Fields, writes: seq<ProxyTracking.Write>)
    ensures var p := AfterWrites(Proxied(row, None), writes); p.tracking.None? ==> p == Proxied(row, None)
  {
    if writes != [] {
      UntrackedIsUnchanged(row, writes[..|writes| - 1]);
    }
  }

  lemma {:induction false} RecordedIff(row: Fields, p: Proxied)
    requires WellKept(p) && (p.tracking.None? ==> p == Proxied(row, None))
    ensures Recorded(row, p) <==> !Unrecorded(row, AttachedAs(p))
  {
    if p.tracking.Some? {
      assert forall k :: RecordedAt(row, p, k) <==> !UnrecordedAt(row, AttachedAs(p), k);
    }
  }

  /** Null, a value, and null again: the caller sees null, `hasChanges` denies it, nothing is sent and the old value stays. */
  lemma {:induction false} NullThereAndBackLosesTheEdit(schema: Schema, row: Fields, id: string, key: string, value: Value)
    requires !schema.diff && key in schema.roots && key != TRACKING_KEY && !Nullish(Read(row, key)) && !Nullish(value)
    ensures var start := World(Tracker(map[], map[], [], []), map[id := row]);
      var edits := WritesOf(id, [ProxyTracking.Write(key, Null), ProxyTracking.Write(key, value), ProxyTracking.Write(key, Null)]);
      var w := AfterEdits(schema, start, edits);
      && RunOk(schema, start, edits) && id in w.tracker.attachments && Read(ValueOf(w.tracker, id), key) == Null
      && !HasChanges(schema, w.tracker) && Saved(schema, w).rows == start.rows
  {
    var writes := [ProxyTracking.Write(key, Null), ProxyTracking.Write(key, value), ProxyTracking.Write(key, Null)];
    EditsAreWrites(schema, row, id, writes);
    NullThereAndBackIsForgotten(row, key, value);
    var a := AttachedAs(AfterWrites(Proxied(row, None), writes));
    assert a.tracking.Some? ==> !a.tracking.value.isDirty;
    CleanIsNotSent(schema, map[id := row], id, a);
    assert a.doc[key] == Null;
  }

  /** Null and then a value: the update reports null as the row's past, so an index keeps what the old value put into it. */
  lemma {:induction false} NullThenValueMisreportsThePast(schema: Schema, row: Fields, id: string, key: string, value: Value)
    requires !schema.diff && key in schema.roots && key != TRACKING_KEY && !Nullish(Read(row, key)) && !Nullish(value)
    ensures var start := World(Tracker(map[], map[], [], []), map[id := row]);
      var edits := WritesOf(id, [ProxyTracking.Write(key, Null), ProxyTracking.Write(key, value)]);
      var emitted := Emitted(schema, AfterEdits(schema, start, edits).tracker);
      && RunOk(schema, start, edits) && id in emitted
      && emitted[id].previous == Some(map[key := Null]) && !PreviousIsTrue(schema, row, emitted[id])
  {
    var writes := [ProxyTracking.Write(key, Null), ProxyTracking.Write(key, value)];
    EditsAreWrites(schema, row, id, writes);
    NullThenValue(row, key, value);
    var a := AttachedAs(AfterWrites(Proxied(row, None), writes));
    assert a == AttachedAs(Proxied(row[key := value], Some(Tracking(map[key := value], map[key := Null], true, false))));
    hide AfterWrites, AfterEdits, RunOk;
    OverwrittenPast(schema, row, id, key, value);
  }

  lemma {:induction false} OverwrittenPast(schema: Schema, row: Fields, id: string, key: string, value: Value)
    requires key in schema.roots && !Nullish(Read(row, key)) && !Nullish(value)
    ensures var a := AttachedAs(Proxied(row[key := value], Some(Tracking(map[key := value], map[key := Null], true, false))));
      var t := WithAttachment(Tracker(map[], map[], [], []), id, a);
      && id in Emitted(schema, t) && Emitted(schema, t)[id].previous == Some(map[key := Null])
      && !PreviousIsTrue(schema, row, Emitted(schema, t)[id])
  {
    var a := AttachedAs(Proxied(row[key := value], Some(Tracking(map[key := value], map[key := Null], true, false))));
    EmittedAt(schema, WithAttachment(Tracker(map[], map[], [], []), id, a), id);
    assert key in a.tracking.value.original;
    RecordedPrevious(schema, a);
    hide Emitted, UpdateOf;
  }

  // ----- what the content hash does not notice -----

  /** The generated object hash: the texts of the hashed properties, with nothing between them and no keys among them. */
  function ContentHash(hashed: seq<string>, text: Value -> string): Fields -> string {
    (doc: Fields) => Texts(hashed, text, doc)
  }

  function Texts(hashed: seq<string>, text: Value -> string, doc: Fields): string {
    if hashed == [] then "" else text(Read(doc, hashed[0])) + Texts(hashed[1..], text, doc)
  }

  lemma {:induction false} TextsOfTheHashed(hashed: seq<string>, text: Value -> string, a: Fields, b: Fields)
    requires forall k | k in hashed :: Read(a, k) == Read(b, k)
    ensures Texts(hashed, text, a) == Texts(hashed, text, b)
  {
    if hashed != [] {
      TextsOfTheHashed(hashed[1..], text, a, b);
    }
  }

  /** A mutation of a root that is not hashed, such as a key, goes unnoticed. */
  lemma {:induction false} LeftOutRootsAreUnnoticed(schema: Schema, hashed: seq<string>, text: Value -> string, base: Fields, k: string, v: Value)
    requires schema.hash == ContentHash(hashed, text) && k !in hashed && Read(base, k) != v
    ensures Unnoticed(schema, Attachment(base[k := v], NotModified, None, Some(base)))
  {
    TextsOfTheHashed(hashed, text, base[k := v], base);
    assert Read(base[k := v], k) == v;
  }

  /** Two texts that join to the same string: an ordinary edit of two names is never sent, and `hasChanges` denies it. */
  lemma {:induction false} JoinedTextsLoseTheEdit(text: Value -> string)
    requires forall s :: text(Scalar(s)) == s
    ensures var schema := Schema({"first", "last"}, true, ContentHash(["first", "last"], text));
      var was, now := map["first" := Scalar("ab"), "last" := Scalar("c")], map["first" := Scalar("a"), "last" := Scalar("bc")];
      var start, edits := World(Tracker(map[], map[], [], []), map["1" := was]), [Attach("1"), Mutate("1", now)];
      var w := AfterEdits(schema, start, edits);
      && RunOk(schema, start, edits) && ValueOf(w.tracker, "1") == now
      && !HasChanges(schema, w.tracker) && Saved(schema, w).rows == start.rows
  {
    var schema := Schema({"first", "last"}, true, ContentHash(["first", "last"], text));
    var was, now := map["first" := Scalar("ab"), "last" := Scalar("c")], map["first" := Scalar("a"), "last" := Scalar("bc")];
    TextsOfTwo(text, was);
    TextsOfTwo(text, now);
    assert schema.hash(was) == "ab" + "c" == "a" + "bc" == schema.hash(now);
    var none := Tracker(map[], map[], [], []);
    var start := World(none, map["1" := was]);
    var attached := start.(tracker := WithAttachment(none, "1", Attached(schema, was)));
    var mutated := Attached(schema, was).(doc := now);
    var w := start.(tracker := WithAttachment(none, "1", mutated));
    RunOfTwo(schema, start, Attach("1"), Mutate("1", now), attached, w);
    CleanIsNotSent(schema, start.rows, "1", mutated);
  }

  lemma {:induction false} CleanIsNotSent(schema: Schema, rows: Rows, id: string, a: Attachment)
    requires !Dirty(schema, a) && a.changeType.NotModified?
    ensures var w := World(WithAttachment(Tracker(map[], map[], [], []), id, a), rows);
      !HasChanges(schema, w.tracker) && Saved(schema, w).rows == rows
  {
    var t := WithAttachment(Tracker(map[], map[], [], []), id, a);
    assert Emitted(schema, t) == map[];
    assert LandAll(rows, map[]) == rows;
  }

  lemma {:induction false} TextsOfTwo(text: Value -> string, doc: Fields)
    ensures Texts(["first", "last"], text, doc) == text(Read(doc, "first")) + text(Read(doc, "last"))
  {
    assert ["first", "last"][1..] == ["last"] && ["last"][1..] == [];
    assert Texts(["last"], text, doc) == text(Read(doc, "last")) + "";
  }

  lemma {:induction false} RunOfTwo(schema: Schema, start: World, a: Edit, b: Edit, mid: World, end: World)
    requires EditOk(schema, start, a) && AfterEdit(schema, start, a) == mid
    requires EditOk(schema, mid, b) && AfterEdit(schema, mid, b) == end
    ensures RunOk(schema, start, [a, b]) && AfterEdits(schema, start, [a, b]) == end
  {
    hide EditOk, AfterEdit;
    assert [a, b][..1] == [a] && [a][..0] == [];
    assert AfterEdits(schema, start, []) == start;
    assert AfterEdits(schema, start, [a]) == mid && RunOk(schema, start, [a]);
  }

  // ----- edits while a save is out -----

  /**
   An edit through the proxy made while a save is out stays to be sent exactly when the save did
   not carry its row; else the echo overwrites it too, wherever it is not null. An immutable update is gone in either case.
   */
  lemma {:induction false} EditInFlightSurvivesIff(schema: Schema, sent: World, now: Tracker, id: string)
    requires id in now.attachments
    ensures var after, echo := SettledLate(schema, sent, now).tracker, Echo(schema, sent);
      && (id !in now.pending && TrackingDirty(now.attachments[id]) ==> (id in Emitted(schema, after) <==> id !in echo))
      && (id in echo ==> id !in Emitted(schema, after))
      && (id in echo ==> forall k | k in echo[id] && (id in now.pending || !Nullish(echo[id][k])) ::
            Read(ValueOf(after, id), k) == echo[id][k])
      && (id in now.pending && id !in echo ==> ValueOf(after, id) == now.attachments[id].doc)
      && after.pending == map[]
  {
    hide Echo, UpdateOf;
    EmittedAt(schema, SettledLate(schema, sent, now).tracker, id);
  }

  // ----- previous values -----

  /** What a consumer of `previous` relies on: it names every root that changed, with what was stored. */
  predicate PreviousIsTrue(schema: Schema, row: Fields, u: EntityUpdate) {
    && u.previous.Some?
    && forall k | k in schema.roots ::
      if k in u.previous.value then u.previous.value[k] == Read(row, k) else Read(u.entity, k) == Read(row, k)
  }

  /**
   What an emitted update's past is true to: a pending row's original at the patched properties, a
   record's originals at the recorded ones, a marked row's own present; and nothing else may differ
   from the stored row. A row found by its hash tells its whole baseline, which is the stored row.
   */
  predicate PastIsKnown(schema: Schema, row: Fields, t: Tracker, id: string)
    requires id in t.attachments
  {
    var a := t.attachments[id];
    if id in t.pending then
      var u := t.pending[id];
      forall k | k in schema.roots :: Read(if k in u.patch then u.original else u.current, k) == Read(row, k)
    else if FoundBySnapshot(schema, a) then true
    else if a.tracking.Some? && a.tracking.value.original != map[] then
      forall k | k in schema.roots :: TruthfulAt(row, Proxied(a.doc, a.tracking), k)
    else forall k | k in schema.roots :: Read(a.doc, k) == Read(row, k)
  }

  lemma {:induction false} AttachmentPreviousIsTrueIff(schema: Schema, row: Fields, t: Tracker, id: string)
    requires id in t.attachments && id !in t.pending && RowInSync(schema, row, t.attachments[id]) && Dirty(schema, t.attachments[id])
    ensures PreviousIsTrue(schema, row, UpdateOf(schema, t.attachments[id])) <==> PastIsKnown(schema, row, t, id)
  {
    var a := t.attachments[id];
    var u := UpdateOf(schema, a);
    if FoundBySnapshot(schema, a) {
      assert u.previous.value == AllRoots(schema, a.snapshot.value);
      assert forall k :: Read(a.snapshot.value, k) == Read(row, k);
    } else if a.tracking.Some? && a.tracking.value.original != map[] {
      RecordedPrevious(schema, a);
      forall k | k in schema.roots
        ensures (if k in u.previous.value then u.previous.value[k] == Read(row, k) else Read(u.entity, k) == Read(row, k)) <==>
          TruthfulAt(row, Proxied(a.doc, a.tracking), k)
      {
      }
    } else {
      assert u.previous.value == AllRoots(schema, a.doc);
    }
  }

  lemma {:induction false} RecordedPrevious(schema: Schema, a: Attachment)
    requires a.tracking.Some? && a.tracking.value.original != map[] && WellKept(Proxied(a.doc, a.tracking))
    requires a.tracking.value.changes.Keys <= schema.roots && !FoundBySnapshot(schema, a)
    ensures UpdateOf(schema, a).previous == Some(a.tracking.value.original)
  {
    var original := a.tracking.value.original;
    var k :| k in original;
    assert |original| > 0;
    assert Restored(a.doc, original) == Some(a.doc + original);
    assert SerializeDelta(schema, a.doc + original, a.tracking.value.changes) == original;
  }

  /** A pending row started from the stored row, and its patch names what it changed. */
  ghost predicate PendingInSync(schema: Schema, row: Fields, u: Pending) {
    RootsAgree(u) && SameReading(u.original, row) && u.patch.Keys <= schema.roots && u.current.Keys <= schema.roots
  }

  lemma {:induction false} PendingPreviousIsTrue(schema: Schema, row: Fields, u: Pending)
    requires PendingInSync(schema, row, u)
    ensures PreviousIsTrue(schema, row, PendingUpdate(schema, u))
  {
    forall k | k in schema.roots
      ensures if k in u.patch then Read(u.original, k) == Read(row, k) else Read(u.current, k) == Read(row, k)
    {
    }
  }

  /** Along every run, what a save reports as a row's past is what was stored, exactly when the mode that speaks for it knows the past. */
  lemma {:induction false} RunsReportTruePreviousIff(schema: Schema, rows: Rows, edits: seq<Edit>, id: string)
    requires forall r | r in rows :: rows[r].Keys <= schema.roots
    requires RunOk(schema, World(Tracker(map[], map[], [], []), rows), edits)
    requires id in Emitted(schema, AfterEdits(schema, World(Tracker(map[], map[], [], []), rows), edits).tracker)
    ensures var w := AfterEdits(schema, World(Tracker(map[], map[], [], []), rows), edits);
      && id in w.rows && id in w.tracker.attachments
      && (PreviousIsTrue(schema, w.rows[id], Emitted(schema, w.tracker)[id]) <==> PastIsKnown(schema, w.rows[id], w.tracker, id))
  {
    var start := World(Tracker(map[], map[], [], []), rows);
    var w := AfterEdits(schema, start, edits);
    RunKeepsInSync(schema, start, edits);
    EmittedAt(schema, w.tracker, id);
    hide AfterEdits, RunOk;
    if id in w.tracker.pending {
      hide RowInSync;
    } else {
      hide PreviousIsTrue, PastIsKnown;
      AttachmentPreviousIsTrueIff(schema, w.rows[id], w.tracker, id);
    }
  }

  /** Along every run of writes, the row's past is reported as it was stored exactly when each property's last write left it in the record. */
  lemma {:induction false} WrittenRowTellsThePastIff(schema: Schema, row: Fields, id: string, writes: seq<ProxyTracking.Write>)
    requires !schema.diff && row.Keys <= schema.roots && forall i | 0 <= i < |writes| :: writes[i].key in schema.roots
    ensures var w := AfterEdits(schema, World(Tracker(map[], map[], [], []), map[id := row]), WritesOf(id, writes));
      id in Emitted(schema, w.tracker) ==>
        (PreviousIsTrue(schema, row, Emitted(schema, w.tracker)[id]) <==>
         forall k | k in schema.roots :: LastWriteTells(row, Proxied(row, None), writes, k))
  {
    var start := World(Tracker(map[], map[], [], []), map[id := row]);
    var w := AfterEdits(schema, start, WritesOf(id, writes));
    EditsAreWrites(schema, row, id, writes);
    var p := AfterWrites(Proxied(row, None), writes);
    RunKeepsItWell(Proxied(row, None), writes);
    if id in Emitted(schema, w.tracker) {
      RunsReportTruePreviousIff(schema, start.rows, WritesOf(id, writes), id);
      WrittenPastIsKnownIff(schema, row, w.tracker, id, p);
      forall k
        ensures TruthfulAt(row, p, k) <==> LastWriteTells(row, Proxied(row, None), writes, k)
      {
        RunTellsIff(row, Proxied(row, None), writes, k);
      }
      hide TruthfulAt, PastIsKnown, PreviousIsTrue, AfterEdits, LastWriteTells;
    }
  }

  lemma {:induction false} WrittenPastIsKnownIff(schema: Schema, row: Fields, t: Tracker, id: string, p: Proxied)
    requires t == WithAttachment(Tracker(map[], map[], [], []), id, AttachedAs(p)) && WellKept(p) && id in Emitted(schema, t)
    ensures PastIsKnown(schema, row, t, id) <==> forall k | k in schema.roots :: TruthfulAt(row, p, k)
  {
    var a := t.attachments[id];
    assert Dirty(schema, a);
    assert a.tracking.Some? && |a.tracking.value.original| > 0;
    var k :| k in a.tracking.value.original;
    hide TruthfulAt;
  }

  // ----- where one mode at a time matters -----

  /** A pending row's stored value is its current one exactly when its patch names all that differs. */
  lemma {:induction false} PendingRowConvergesIff(schema: Schema, row: Fields, u: Pending)
    requires u.patch.Keys <= schema.roots && u.patch != map[]
    ensures SameReading(Land(row, PendingUpdate(schema, u)), u.current) <==>
      forall k | k in row.Keys + u.current.Keys :: k !in u.patch ==> Read(row, k) == Read(u.current, k)
  {
    var delta := PendingUpdate(schema, u).delta;
    assert delta.Keys == u.patch.Keys;
    var key :| key in u.patch;
    assert key in delta;
    forall k
      ensures Read(row + delta, k) == if k in u.patch then Read(u.current, k) else Read(row, k)
    {
    }
    if SameReading(Land(row, PendingUpdate(schema, u)), u.current) {
      forall k | k !in u.patch
        ensures Read(row, k) == Read(u.current, k)
      {
        assert Read(row + delta, k) == Read(u.current, k);
      }
    }
  }

  /** An edit through the proxy followed by an update of another root: only the update is stored. */
  lemma {:induction false} MixedModesLoseTheProxyEdit(schema: Schema, row: Fields, edited: string, value: Value, k: string, v: Value)
    requires {edited, k} <= schema.roots && edited != k && Read(row, edited) != value
    ensures var u := Updated(None, Partial(map[k := v]), Some(row[edited := value])).value;
      Read(u.current, edited) == value && Read(Land(row, PendingUpdate(schema, u)), edited) == Read(row, edited)
  {
    var u := Updated(None, Partial(map[k := v]), Some(row[edited := value])).value;
    assert u.patch == map[k := v];
    assert k in PendingUpdate(schema, u).delta && edited !in PendingUpdate(schema, u).delta;
  }
}
