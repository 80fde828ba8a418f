/**
 The write trap that `createChangeTracker` of core/src/schema/SchemaDefinition.ts puts around an
 entity, for its root properties: what it records of each write, and how the state at the last
 save is rebuilt from the record (datastore/src/change-tracking/ChangeTracker.ts).
 */
module ProxyTracking {
  import opened Options
  import opened Patch

  /** What `== null` accepts. */
  predicate Nullish(v: Value) { v.Undefined? || v.Null? }

  datatype Tracking = Tracking(changes: Fields, original: Fields, isDirty: bool, isPaused: bool)

  const BLANK := Tracking(map[], map[], false, false)

  const TRACKING_KEY := "__tracking__"

  datatype Proxied = Proxied(values: Fields, tracking: Option<Tracking>)

  /** The record after a write that changes `key` from `was` to `value`. */
  function Record(t: Tracking, key: string, was: Value, value: Value): Tracking {
    var t' :=
      if Nullish(Read(t.changes, key)) then
        t.(changes := t.changes[key := value], original := t.original[key := was])
      else if Read(t.original, key) == value then
        t.(changes := t.changes - {key}, original := t.original - {key})
      else
        t.(changes := t.changes[key := value]);
    t'.(isDirty := |t'.original| > 0)
  }

  function Written(p: Proxied, key: string, value: Value): Proxied {
    if Read(p.values, key) == value then p
    else
      var t := if p.tracking.Some? then p.tracking.value else BLANK;
      if key == TRACKING_KEY then p.(tracking := Some(t))
      else if t.isPaused then Proxied(p.values[key := value], Some(t))
      else Proxied(p.values[key := value], Some(Record(t, key, Read(p.values, key), value)))
  }

  datatype Write = Write(key: string, value: Value)

  function AfterWrites(p: Proxied, writes: seq<Write>): Proxied {
    if writes == [] then p
    else Written(AfterWrites(p, writes[..|writes| - 1]), writes[|writes| - 1].key, writes[|writes| - 1].value)
  }

  /** Each recorded path goes back to what it held before its first change; nothing recorded, nothing to say. */
  function Restored(values: Fields, original: Fields): Option<Fields> {
    if |original| == 0 then None else Some(values + original)
  }

  // ----- exactness -----

  function TrackingOf(p: Proxied): Tracking { if p.tracking.Some? then p.tracking.value else BLANK }

  predicate ChangedSince(base: Fields, values: Fields, key: string) { Read(base, key) != Read(values, key) }

  /** The record names exactly the properties that differ from the last save, with both their values. */
  ghost predicate Exact(base: Fields, p: Proxied) {
    var t := TrackingOf(p);
    && !t.isPaused
    && (forall k :: ExactAt(base, p.values, t, k))
    && (t.isDirty <==> |t.original| > 0)
  }

  predicate ExactAt(base: Fields, values: Fields, t: Tracking, k: string) {
    && (k in t.original <==> ChangedSince(base, values, k)) && (k in t.changes <==> k in t.original)
    && (k in t.original ==> t.original[k] == Read(base, k) && t.changes[k] == Read(values, k))
  }

  lemma {:induction false} FreshEntityIsExact(values: Fields)
    ensures Exact(values, Proxied(values, None)) && Exact(values, Proxied(values, Some(BLANK)))
  {
  }

  /** A change to null was recorded for the key, and a recorded null reads as nothing recorded. */
  predicate Forgotten(p: Proxied, key: string) {
    key in TrackingOf(p).changes && Nullish(TrackingOf(p).changes[key])
  }

  predicate Real(p: Proxied, key: string, value: Value) { key != TRACKING_KEY && Read(p.values, key) != value }

  /** A write keeps the record exact, except exactly when it really changes a key last changed to null. */
  lemma {:induction false} WriteKeepsExactIff(base: Fields, p: Proxied, key: string, value: Value)
    requires Exact(base, p)
    ensures Exact(base, Written(p, key, value)) <==> !(Real(p, key, value) && Forgotten(p, key))
  {
    if Real(p, key, value) {
      if Forgotten(p, key) {
        var t' := TrackingOf(Written(p, key, value));
        assert ExactAt(base, p.values, TrackingOf(p), key);
        assert t'.original[key] == Read(p.values, key);
        assert !ExactAt(base, p.values[key := value], t', key);
      } else {
        RecordStaysExact(base, p, key, value);
      }
    } else {
      assert Read(p.values, key) != value ==> TrackingOf(Written(p, key, value)) == TrackingOf(p);
    }
  }

  lemma {:induction false} RecordStaysExact(base: Fields, p: Proxied, key: string, value: Value)
    requires Exact(base, p) && Real(p, key, value) && !Forgotten(p, key)
    ensures Exact(base, Written(p, key, value))
  {
    var t := TrackingOf(p);
    var was := Read(p.values, key);
    var values' := p.values[key := value];
    var t' := Record(t, key, was, value);
    hide Record, Written, Restored;
    WrittenIs(p, key, value);
    assert ExactAt(base, p.values, t, key);
    RecordHere(base, p.values, t, key, value);
    forall k
      ensures ExactAt(base, values', t', k)
    {
      assert ExactAt(base, p.values, t, k);
      if k != key {
        RecordElsewhere(t, key, was, value, k);
      }
    }
  }

  lemma {:induction false} WrittenIs(p: Proxied, key: string, value: Value)
    requires Real(p, key, value) && !TrackingOf(p).isPaused
    ensures Written(p, key, value) == Proxied(p.values[key := value], Some(Record(TrackingOf(p), key, Read(p.values, key), value)))
  {
    hide Record;
  }

  lemma {:induction false} RecordHere(base: Fields, values: Fields, t: Tracking, key: string, value: Value)
    requires ExactAt(base, values, t, key) && Read(values, key) != value && !(key in t.changes && Nullish(t.changes[key]))
    ensures var t' := Record(t, key, Read(values, key), value);
      ExactAt(base, values[key := value], t', key) && t'.isPaused == t.isPaused && (t'.isDirty <==> |t'.original| > 0)
  {
  }

  lemma {:induction false} RecordElsewhere(t: Tracking, key: string, was: Value, value: Value, k: string)
    requires k != key
    ensures var t' := Record(t, key, was, value);
      && (k in t'.original <==> k in t.original) && (k in t.original ==> t'.original[k] == t.original[k])
      && (k in t'.changes <==> k in t.changes) && (k in t.changes ==> t'.changes[k] == t.changes[k])
  {
    if Nullish(Read(t.changes, key)) {
    } else if Read(t.original, key) == value {
    } else {
    }
  }

  /** No write of the run changes a key that the run last changed to null. */
  predicate NeverOverNull(p: Proxied, writes: seq<Write>) {
    if writes == [] then true
    else
      var last := writes[|writes| - 1];
      var before := AfterWrites(p, writes[..|writes| - 1]);
      && NeverOverNull(p, writes[..|writes| - 1])
      && !(Real(before, last.key, last.value) && Forgotten(before, last.key))
  }

  /** The main result: over every such run the record is exact, dirty means different, and undoing it rebuilds the base. */
  lemma {:induction false} TrackingIsExact(base: Fields, writes: seq<Write>)
    requires NeverOverNull(Proxied(base, None), writes)
    ensures var p := AfterWrites(Proxied(base, None), writes);
      && Exact(base, p)
      && (TrackingOf(p).isDirty <==> exists k :: ChangedSince(base, p.values, k))
      && SameReading(Undo(p), base)
  {
    var p := AfterWrites(Proxied(base, None), writes);
    RunKeepsExact(base, writes);
    UndoRebuilds(base, p);
    var original := TrackingOf(p).original;
    if original != map[] {
      var k :| k in original;
      assert ExactAt(base, p.values, TrackingOf(p), k);
    }
    forall k | ChangedSince(base, p.values, k)
      ensures |original| > 0
    {
      assert ExactAt(base, p.values, TrackingOf(p), k);
    }
  }

  lemma {:induction false} RunKeepsExact(base: Fields, writes: seq<Write>)
    requires NeverOverNull(Proxied(base, None), writes)
    ensures Exact(base, AfterWrites(Proxied(base, None), writes))
  {
    if writes == [] {
      FreshEntityIsExact(base);
    } else {
      var last := writes[|writes| - 1];
      RunKeepsExact(base, writes[..|writes| - 1]);
      WriteKeepsExactIff(base, AfterWrites(Proxied(base, None), writes[..|writes| - 1]), last.key, last.value);
    }
  }

  predicate NoNullRecorded(p: Proxied) {
    forall k | k in TrackingOf(p).changes :: !Nullish(TrackingOf(p).changes[k])
  }

  lemma {:induction false} NonNullWriteRecordsNoNull(p: Proxied, key: string, value: Value)
    requires NoNullRecorded(p) && !Nullish(value)
    ensures NoNullRecorded(Written(p, key, value))
  {
    var t := TrackingOf(p);
    if Real(p, key, value) && !t.isPaused {
      var was := Read(p.values, key);
      var t' := Record(t, key, was, value);
      assert TrackingOf(Written(p, key, value)) == t';
      assert key in t'.changes ==> t'.changes[key] == value;
      hide Record, Written;
      forall k | k in t'.changes
        ensures !Nullish(t'.changes[k])
      {
        if k != key {
          RecordElsewhere(t, key, was, value, k);
        }
      }
    }
  }

  /** A run that writes no null at all never meets the exception. */
  lemma {:induction false} NonNullRunsNeverOverNull(base: Fields, writes: seq<Write>)
    requires forall i | 0 <= i < |writes| :: !Nullish(writes[i].value)
    ensures NeverOverNull(Proxied(base, None), writes)
    ensures NoNullRecorded(AfterWrites(Proxied(base, None), writes))
  {
    if writes != [] {
      var n := |writes| - 1;
      NonNullRunsNeverOverNull(base, writes[..n]);
      NonNullWriteRecordsNoNull(AfterWrites(Proxied(base, None), writes[..n]), writes[n].key, writes[n].value);
    }
  }

  ghost predicate SameReading(a: Fields, b: Fields) { forall k :: Read(a, k) == Read(b, k) }

  function Undo(p: Proxied): Fields {
    var r := Restored(p.values, TrackingOf(p).original);
    if r.Some? then r.value else p.values
  }

  lemma {:induction false} UndoRebuilds(base: Fields, p: Proxied)
    requires Exact(base, p)
    ensures SameReading(Undo(p), base)
    ensures Restored(p.values, TrackingOf(p).original).None? <==> SameReading(p.values, base)
  {
    var original := TrackingOf(p).original;
    forall k
      ensures Read(Undo(p), k) == Read(base, k)
    {
      assert ExactAt(base, p.values, TrackingOf(p), k);
    }
    if |original| > 0 {
      var k :| k in original;
      assert ExactAt(base, p.values, TrackingOf(p), k);
    } else {
      assert forall k :: ExactAt(base, p.values, TrackingOf(p), k) ==> k !in original;
    }
  }

  /** A property set to null and then to something else is undone to the null, not to what was saved. */
  lemma {:induction false} NullForgetsTheOriginal(base: Fields, key: string, value: Value)
    requires key != TRACKING_KEY && !Nullish(Read(base, key)) && !Nullish(value)
    ensures var p := AfterWrites(Proxied(base, None), [Write(key, Null), Write(key, value)]);
      Read(Undo(p), key) == Null != Read(base, key)
  {
    var first := Write(key, Null);
    assert [first, Write(key, value)][..1] == [first] && [first][..0] == [];
    var one := AfterWrites(Proxied(base, None), [first]);
    assert AfterWrites(Proxied(base, None), []) == Proxied(base, None);
    assert one == Written(Proxied(base, None), key, Null);
    var p := AfterWrites(Proxied(base, None), [first, Write(key, value)]);
    assert p == Written(one, key, value);
    assert TrackingOf(p).original[key] == Null;
  }

  // ----- what every run keeps, nulls and all -----

  /** The two bags name the same properties, and dirty means that they name any. */
  predicate WellKept(p: Proxied) {
    var t := TrackingOf(p);
    t.changes.Keys == t.original.Keys && !t.isPaused && (t.isDirty <==> |t.original| > 0)
  }

  predicate RecordedAt(base: Fields, p: Proxied, k: string) { ChangedSince(base, p.values, k) ==> k in TrackingOf(p).changes }

  /** Whatever differs from the last save is recorded as changed. */
  ghost predicate Recorded(base: Fields, p: Proxied) { WellKept(p) && forall k :: RecordedAt(base, p, k) }

  /** The write finds its value as the recorded original, which is not what was saved: the change is taken out of the record. */
  predicate TakesBack(base: Fields, p: Proxied, key: string, value: Value) {
    && Real(p, key, value) && key in TrackingOf(p).changes && !Nullish(TrackingOf(p).changes[key])
    && Read(TrackingOf(p).original, key) == value && Read(base, key) != value
  }

  lemma {:induction false} WriteKeepsItWell(p: Proxied, key: string, value: Value)
    requires WellKept(p)
    ensures WellKept(Written(p, key, value))
    ensures TrackingOf(Written(p, key, value)).changes.Keys <= TrackingOf(p).changes.Keys + {key}
  {
    if Real(p, key, value) {
      WrittenIs(p, key, value);
      RecordKeepsItWell(TrackingOf(p), key, Read(p.values, key), value);
    }
  }

  lemma {:induction false} RecordKeepsItWell(t: Tracking, key: string, was: Value, value: Value)
    requires t.changes.Keys == t.original.Keys && !t.isPaused
    ensures var t' := Record(t, key, was, value);
      && t'.changes.Keys == t'.original.Keys && t'.changes.Keys <= t.changes.Keys + {key}
      && !t'.isPaused && (t'.isDirty <==> |t'.original| > 0)
  {
    if Nullish(Read(t.changes, key)) {
    } else if Read(t.original, key) == value {
    } else {
    }
  }

  /** A real write decides for its own key alone, whatever was recorded before. */
  lemma {:induction false} WriteRecordsIff(base: Fields, p: Proxied, key: string, value: Value, k: string)
    requires WellKept(p)
    ensures RecordedAt(base, Written(p, key, value), k) <==>
      if k == key && Real(p, key, value) then !TakesBack(base, p, key, value) else RecordedAt(base, p, k)
  {
    if k != key || !Real(p, key, value) {
      WriteLeavesOthers(p, key, value, k);
      hide Written;
    } else {
      WrittenIs(p, key, value);
      hide Written;
    }
  }

  /** A write that does nothing to `k`: what is recorded of it stays. */
  lemma {:induction false} WriteLeavesOthers(p: Proxied, key: string, value: Value, k: string)
    requires WellKept(p) && (k != key || !Real(p, key, value))
    ensures var p' := Written(p, key, value);
      && Read(p'.values, k) == Read(p.values, k)
      && Read(TrackingOf(p').changes, k) == Read(TrackingOf(p).changes, k) && (k in TrackingOf(p').changes <==> k in TrackingOf(p).changes)
      && Read(TrackingOf(p').original, k) == Read(TrackingOf(p).original, k) && (k in TrackingOf(p').original <==> k in TrackingOf(p).original)
  {
    if Real(p, key, value) {
      WrittenIs(p, key, value);
      RecordElsewhere(TrackingOf(p), key, Read(p.values, key), value, k);
      hide Record, Written;
    } else {
      assert Written(p, key, value).values == p.values && TrackingOf(Written(p, key, value)) == TrackingOf(p);
      hide Written;
    }
  }

  /** A write keeps all changes recorded, except exactly when it takes one back to what was not saved. */
  lemma {:induction false} WriteKeepsRecordedIff(base: Fields, p: Proxied, key: string, value: Value)
    requires Recorded(base, p)
    ensures Recorded(base, Written(p, key, value)) <==> !TakesBack(base, p, key, value)
  {
    WriteKeepsItWell(p, key, value);
    hide Written, WellKept, RecordedAt, TakesBack;
    if TakesBack(base, p, key, value) {
      WriteRecordsIff(base, p, key, value, key);
      TakingBackIsReal(base, p, key, value);
    } else {
      forall k
        ensures RecordedAt(base, Written(p, key, value), k)
      {
        WriteRecordsIff(base, p, key, value, k);
        assert RecordedAt(base, p, k);
      }
    }
  }

  lemma {:induction false} TakingBackIsReal(base: Fields, p: Proxied, key: string, value: Value)
    requires TakesBack(base, p, key, value)
    ensures Real(p, key, value)
  {
  }

  /** The last write of the run that really changed `key` did not take it back; with none, the key was recorded before. */
  predicate LastWriteRecords(base: Fields, start: Proxied, writes: seq<Write>, key: string) {
    if writes == [] then RecordedAt(base, start, key)
    else
      var last, before := writes[|writes| - 1], AfterWrites(start, writes[..|writes| - 1]);
      if last.key == key && Real(before, key, last.value) then !TakesBack(base, before, key, last.value)
      else LastWriteRecords(base, start, writes[..|writes| - 1], key)
  }

  ghost predicate LastWritesRecord(base: Fields, start: Proxied, writes: seq<Write>) {
    forall key :: LastWriteRecords(base, start, writes, key)
  }

  /** Over every run of writes: all that differs is recorded, exactly when each property's last real write did not take it back. */
  lemma {:induction false} RunRecordsIff(base: Fields, writes: seq<Write>)
    ensures var start := Proxied(base, None);
      Recorded(base, AfterWrites(start, writes)) <==> LastWritesRecord(base, start, writes)
  {
    var start := Proxied(base, None);
    var p := AfterWrites(start, writes);
    RunKeepsItWell(start, writes);
    hide AfterWrites, RecordedAt, WellKept, LastWriteRecords;
    if Recorded(base, p) {
      forall key
        ensures LastWriteRecords(base, start, writes, key)
      {
        assert RecordedAt(base, p, key);
        RunRecordsKeyIff(base, start, writes, key);
      }
    }
    if LastWritesRecord(base, start, writes) {
      forall key
        ensures RecordedAt(base, p, key)
      {
        assert LastWriteRecords(base, start, writes, key);
        RunRecordsKeyIff(base, start, writes, key);
      }
    }
  }

  lemma {:induction false} RunKeepsItWell(start: Proxied, writes: seq<Write>)
    requires WellKept(start)
    ensures WellKept(AfterWrites(start, writes))
  {
    if writes != [] {
      RunKeepsItWell(start, writes[..|writes| - 1]);
      WriteKeepsItWell(AfterWrites(start, writes[..|writes| - 1]), writes[|writes| - 1].key, writes[|writes| - 1].value);
    }
  }

  lemma {:induction false} RunRecordsKeyIff(base: Fields, start: Proxied, writes: seq<Write>, key: string)
    requires WellKept(start)
    ensures RecordedAt(base, AfterWrites(start, writes), key) <==> LastWriteRecords(base, start, writes, key)
  {
    hide RecordedAt, Written, WellKept, TakesBack, Real;
    if writes != [] {
      var last, before := writes[|writes| - 1], AfterWrites(start, writes[..|writes| - 1]);
      RunRecordsKeyIff(base, start, writes[..|writes| - 1], key);
      RunKeepsItWell(start, writes[..|writes| - 1]);
      WriteRecordsIff(base, before, last.key, last.value, key);
    }
  }

  // ----- when the recorded originals are what was saved -----

  predicate TruthfulAt(base: Fields, p: Proxied, k: string) {
    var original := TrackingOf(p).original;
    if k in original then original[k] == Read(base, k) else !ChangedSince(base, p.values, k)
  }

  /** Every recorded original is what was saved, and nothing else differs. */
  ghost predicate Truthful(base: Fields, p: Proxied) { WellKept(p) && forall k :: TruthfulAt(base, p, k) }

  /** The write records as original a value that was not saved: the property had been changed to null. */
  predicate Overwrites(base: Fields, p: Proxied, key: string, value: Value) {
    Real(p, key, value) && Nullish(Read(TrackingOf(p).changes, key)) && Read(p.values, key) != Read(base, key)
  }

  /** What the record will hold as the property's past after a real write of it is what was saved. */
  predicate TellsThePast(base: Fields, p: Proxied, key: string) {
    Read(if Nullish(Read(TrackingOf(p).changes, key)) then p.values else TrackingOf(p).original, key) == Read(base, key)
  }

  /** A real write decides for its own key alone, whatever the record told before. */
  lemma {:induction false} WriteTellsIff(base: Fields, p: Proxied, key: string, value: Value, k: string)
    requires WellKept(p)
    ensures TruthfulAt(base, Written(p, key, value), k) <==>
      if k == key && Real(p, key, value) then TellsThePast(base, p, key) else TruthfulAt(base, p, k)
  {
    if k != key || !Real(p, key, value) {
      WriteLeavesOthers(p, key, value, k);
      hide Written;
    } else {
      WrittenIs(p, key, value);
      hide Written;
    }
  }

  lemma {:induction false} WriteKeepsTruthfulIff(base: Fields, p: Proxied, key: string, value: Value)
    requires Truthful(base, p)
    ensures Truthful(base, Written(p, key, value)) <==> !Overwrites(base, p, key, value)
  {
    WriteKeepsItWell(p, key, value);
    assert TruthfulAt(base, p, key);
    assert Overwrites(base, p, key, value) <==> Real(p, key, value) && !TellsThePast(base, p, key);
    hide Written, WellKept, TruthfulAt, Overwrites, TellsThePast, Real;
    WriteTellsIff(base, p, key, value, key);
    if !Overwrites(base, p, key, value) {
      forall k
        ensures TruthfulAt(base, Written(p, key, value), k)
      {
        assert TruthfulAt(base, p, k);
        WriteTellsIff(base, p, key, value, k);
      }
    }
  }

  /** The last write of the run that really changed `key` left its true past in the record; with none, the record told it before. */
  predicate LastWriteTells(base: Fields, start: Proxied, writes: seq<Write>, key: string) {
    if writes == [] then TruthfulAt(base, start, key)
    else
      var last, before := writes[|writes| - 1], AfterWrites(start, writes[..|writes| - 1]);
      if last.key == key && Real(before, key, last.value) then TellsThePast(base, before, key)
      else LastWriteTells(base, start, writes[..|writes| - 1], key)
  }

  lemma {:induction false} RunTellsIff(base: Fields, start: Proxied, writes: seq<Write>, key: string)
    requires WellKept(start)
    ensures TruthfulAt(base, AfterWrites(start, writes), key) <==> LastWriteTells(base, start, writes, key)
  {
    hide TruthfulAt, Written, WellKept, TellsThePast, Real;
    if writes != [] {
      var last, before := writes[|writes| - 1], AfterWrites(start, writes[..|writes| - 1]);
      RunTellsIff(base, start, writes[..|writes| - 1], key);
      RunKeepsItWell(start, writes[..|writes| - 1]);
      WriteTellsIff(base, before, last.key, last.value, key);
    }
  }

  lemma {:induction false} NullThenValue(base: Fields, key: string, value: Value)
    requires key != TRACKING_KEY && !Nullish(Read(base, key)) && !Nullish(value)
    ensures AfterWrites(Proxied(base, None), [Write(key, Null), Write(key, value)]) ==
      Proxied(base[key := value], Some(Tracking(map[key := value], map[key := Null], true, false)))
  {
    var writes := [Write(key, Null), Write(key, value)];
    assert writes[..1] == [Write(key, Null)] && writes[..1][..0] == [];
    var one := Written(Proxied(base, None), key, Null);
    assert key in one.tracking.value.original;
    assert one == Proxied(base[key := Null], Some(Tracking(map[key := Null], map[key := Read(base, key)], true, false)));
    var two := Written(one, key, value);
    assert two.values == base[key := value] && key in two.tracking.value.original;
    assert two.tracking.value.changes == map[key := value] && two.tracking.value.original == map[key := Null] && two.tracking.value.isDirty;
    assert AfterWrites(Proxied(base, None), []) == Proxied(base, None);
    assert AfterWrites(Proxied(base, None), [Write(key, Null)]) == one;
  }

  /** Null, a value, and null again: the entity differs from what was saved, and the record is empty. */
  lemma {:induction false} NullThereAndBackIsForgotten(base: Fields, key: string, value: Value)
    requires key != TRACKING_KEY && !Nullish(Read(base, key)) && !Nullish(value)
    ensures var p := AfterWrites(Proxied(base, None), [Write(key, Null), Write(key, value), Write(key, Null)]);
      p.values == base[key := Null] && TrackingOf(p).changes == map[] && TrackingOf(p).original == map[] && !TrackingOf(p).isDirty
  {
    var writes := [Write(key, Null), Write(key, value), Write(key, Null)];
    assert writes[..2] == [Write(key, Null), Write(key, value)];
    NullThenValue(base, key, value);
    var two := AfterWrites(Proxied(base, None), writes[..2]);
    var three := Written(two, key, Null);
    assert three.values == base[key := Null];
    assert three.tracking == Some(Tracking(map[], map[], false, false));
  }

  // ----- the trap itself -----

  class Proxy {
    var values: Fields
    var tracking: Option<Tracking>

    constructor (values: Fields)
      ensures this.values == values && tracking == None
    {
      this.values := values;
      tracking := None;
    }

    function View(): Proxied
      reads this
    {
      Proxied(values, tracking)
    }

    method Set(key: string, value: Value)
      modifies this
      ensures View() == Written(old(View()), key, value)
    {
      var originalValue := Read(values, key);
      if originalValue == value {
        return;
      }
      if tracking.None? {
        tracking := Some(Tracking(map[], map[], false, false));
      }
      if key == TRACKING_KEY {
        return;
      }
      var t := tracking.value;
      if t.isPaused {
        values := values[key := value];
        return;
      }
      var changes, original := t.changes, t.original;
      if !Nullish(Read(changes, key)) {
        if Read(original, key) == value {
          changes, original := changes - {key}, original - {key};
        } else {
          changes := changes[key := value];
        }
      } else {
        changes := changes[key := value];
        original := original[key := originalValue];
      }
      tracking := Some(Tracking(changes, original, |original| > 0, t.isPaused));
      values := values[key := value];
    }

    /** The state at the last save, rebuilt from the recorded originals. */
    method RestoreOriginals() returns (restored: Option<Fields>)
      ensures restored == Restored(values, TrackingOf(View()).original)
    {
      if tracking.None? || |tracking.value.original| == 0 {
        return None;
      }
      var original := tracking.value.original;
      var doc := values;
      var paths := original.Keys;
      while paths != {}
        invariant paths <= original.Keys
        invariant doc == values + (map k | k in original && k !in paths :: original[k])
      {
        var path :| path in paths;
        paths := paths - {path};
        doc := doc[path := original[path]];
      }
      assert (map k | k in original && k !in paths :: original[k]) == original;
      restored := Some(doc);
    }
  }
}
