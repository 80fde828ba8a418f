/**
 The registry of datastore/src/collection-builder/fullTextSearch.ts as an object: index rows are
 appended to a save, counted, and taken out again. Its loops are proved to compute what
 `FullText` says, and taking out is proved to undo appending.
 */
module FullTextPlugin {
  import opened Options
  import opened FullText
  import opened FullTextProofs

  datatype Counts = Counts(adds: nat, updates: nat, removes: nat)

  function CountsOf(rows: Rows): Counts { Counts(|rows.adds|, |rows.updates|, |rows.removes|) }

  type Sources = map<nat, Documents>

  type Targets = map<nat, Rows>

  function Resolve(rows: Targets, index: nat): Rows { if index in rows then rows[index] else NO_ROWS }

  predicate HasItems(d: Documents) { d.adds != [] || d.updates != [] || d.removes != [] }

  predicate Touched(reg: Registration, sources: Sources) { reg.source in sources && HasItems(sources[reg.source]) }

  function EmittedFor(reg: Registration, sources: Sources): Rows {
    if Touched(reg, sources) then Emitted(reg, sources[reg.source]) else NO_ROWS
  }

  function Applied(regs: seq<Registration>, sources: Sources, rows: Targets): Targets {
    if regs == [] then rows
    else
      var reg := regs[|regs| - 1];
      var before := Applied(regs[..|regs| - 1], sources, rows);
      var emitted := EmittedFor(reg, sources);
      if emitted == NO_ROWS then before else before[reg.index := Join(Resolve(before, reg.index), emitted)]
  }

  function AppendedBy(regs: seq<Registration>, sources: Sources): map<nat, Counts> {
    if regs == [] then map[]
    else
      var reg := regs[|regs| - 1];
      var before := AppendedBy(regs[..|regs| - 1], sources);
      var emitted := EmittedFor(reg, sources);
      if emitted == NO_ROWS then before else before[reg.index := CountsOf(emitted)]
  }

  function IndexedBy(regs: seq<Registration>, sources: Sources): map<nat, set<string>> {
    if regs == [] then map[]
    else
      var reg := regs[|regs| - 1];
      var before := IndexedBy(regs[..|regs| - 1], sources);
      if Touched(reg, sources) then before[reg.source := IdsOf(reg, sources[reg.source].adds)] else before
  }

  function Skipped(indexed: map<nat, set<string>>, source: nat): set<string> {
    if source in indexed then indexed[source] else {}
  }

  /** The follow-up write: the rows of added documents that the save itself could not index. */
  function Deferred(regs: seq<Registration>, indexed: map<nat, set<string>>, echoed: Sources): Targets {
    if regs == [] then map[]
    else
      var reg := regs[|regs| - 1];
      var before := Deferred(regs[..|regs| - 1], indexed, echoed);
      if reg.source !in echoed || echoed[reg.source].adds == [] then before
      else
        var more := Rows(AddRows(reg, echoed[reg.source].adds, Skipped(indexed, reg.source)), [], []);
        before[reg.index := Join(Resolve(before, reg.index), more)]
  }

  /** Removes the last `n` elements, or all there are. */
  function DropLast(rows: seq<Row>, n: nat): seq<Row> { rows[..if |rows| < n then 0 else |rows| - n] }

  function Trim(rows: Rows, c: Counts): Rows {
    Rows(DropLast(rows.adds, c.adds), DropLast(rows.updates, c.updates), DropLast(rows.removes, c.removes))
  }

  function Detached(rows: Targets, appended: map<nat, Counts>): Targets {
    map index | index in rows :: if index in appended then Trim(rows[index], appended[index]) else rows[index]
  }

  predicate DistinctSources(regs: seq<Registration>) {
    forall i, j | 0 <= i < j < |regs| :: regs[i].source != regs[j].source
  }

  // ----- the objects -----

  class BulkPersistChanges {
    var documents: Sources
    var rows: Targets

    constructor (documents: Sources, rows: Targets)
      ensures this.documents == documents && this.rows == rows
    {
      this.documents := documents;
      this.rows := rows;
    }
  }

  class FullTextSearchRegistry {
    var registrations: seq<Registration>
    var appended: map<nat, Counts>
    var indexedAdds: map<nat, set<string>>

    constructor ()
      ensures registrations == [] && appended == map[] && indexedAdds == map[]
    {
      registrations := [];
      appended := map[];
      indexedAdds := map[];
    }

    predicate Valid()
      reads this
    {
      DistinctSources(registrations)
    }

    /** A collection is declared once. */
    method Register(registration: Registration) returns (ok: bool)
      requires Valid()
      modifies this
      ensures Valid() && appended == old(appended) && indexedAdds == old(indexedAdds)
      ensures ok <==> forall r | r in old(registrations) :: r.source != registration.source
      ensures registrations == if ok then old(registrations) + [registration] else old(registrations)
    {
      ok := true;
      for i := 0 to |registrations|
        invariant registrations == old(registrations) && appended == old(appended) && indexedAdds == old(indexedAdds)
        invariant ok <==> forall k | 0 <= k < i :: registrations[k].source != registration.source
      {
        if registrations[i].source == registration.source {
          ok := false;
        }
      }
      if ok {
        registrations := registrations + [registration];
      }
    }

    /** The index rows of a save, appended to the save. */
    method Apply(changes: BulkPersistChanges)
      requires Valid()
      modifies this, changes
      ensures Valid() && registrations == old(registrations) && changes.documents == old(changes.documents)
      ensures changes.rows == Applied(registrations, changes.documents, old(changes.rows))
      ensures appended == AppendedBy(registrations, changes.documents)
      ensures indexedAdds == IndexedBy(registrations, changes.documents)
    {
      appended := map[];
      indexedAdds := map[];
      hide Applied, AppendedBy, IndexedBy, Emitted;
      for i := 0 to |registrations|
        invariant registrations == old(registrations) && changes.documents == old(changes.documents)
        invariant changes.rows == Applied(registrations[..i], changes.documents, old(changes.rows))
        invariant appended == AppendedBy(registrations[..i], changes.documents)
        invariant indexedAdds == IndexedBy(registrations[..i], changes.documents)
      {
        var reg := registrations[i];
        OneMoreRegistration(registrations, i, changes.documents, old(changes.rows));
        if reg.source in changes.documents && HasItems(changes.documents[reg.source]) {
          var source := changes.documents[reg.source];
          var emitted := Emit(reg, source);
          indexedAdds := indexedAdds[reg.source := IdsOf(reg, source.adds)];
          if emitted.adds != [] || emitted.updates != [] || emitted.removes != [] {
            changes.rows := changes.rows[reg.index := Join(Resolve(changes.rows, reg.index), emitted)];
            appended := appended[reg.index := Counts(|emitted.adds|, |emitted.updates|, |emitted.removes|)];
          }
        }
      }
      assert registrations[..|registrations|] == registrations;
    }

    /** Index rows for adds whose key the database assigned. */
    method DeferredAdds(result: BulkPersistChanges) returns (deferred: Option<Targets>)
      ensures var all := Deferred(registrations, indexedAdds, result.documents);
        deferred == if exists index | index in all :: all[index].adds != [] then Some(all) else None
    {
      var all: Targets := map[];
      var hasAny := false;
      for i := 0 to |registrations|
        invariant all == Deferred(registrations[..i], indexedAdds, result.documents)
        invariant hasAny <==> exists index | index in all :: all[index].adds != []
      {
        var reg := registrations[i];
        assert registrations[..i + 1][..i] == registrations[..i];
        if reg.source in result.documents && result.documents[reg.source].adds != [] {
          var target := Resolve(all, reg.index);
          var more := EmitAdds(reg, result.documents[reg.source].adds, Skipped(indexedAdds, reg.source));
          ghost var before := all;
          all := all[reg.index := Rows(target.adds + more, target.updates, target.removes)];
          assert Join(target, Rows(more, [], [])) == all[reg.index];
          if more != [] {
            hasAny := true;
          }
          assert forall index | index in before && index != reg.index :: index in all && all[index] == before[index];
          assert hasAny ==> (more != [] || (exists index | index in before :: before[index].adds != []));
        }
      }
      assert registrations[..|registrations|] == registrations;
      deferred := if hasAny then Some(all) else None;
    }

    /** The appended rows, taken back out of the save and of its result. */
    method Detach(changes: BulkPersistChanges, result: BulkPersistChanges?)
      requires changes != result
      modifies this, changes, result
      ensures registrations == old(registrations) && indexedAdds == old(indexedAdds) && appended == map[]
      ensures changes.documents == old(changes.documents) && changes.rows == Detached(old(changes.rows), old(appended))
      ensures result != null ==>
        result.documents == old(result.documents) && result.rows == Detached(old(result.rows), old(appended))
    {
      TakeOut(changes);
      if result != null {
        TakeOut(result);
      }
      appended := map[];
    }

    method TakeOut(from: BulkPersistChanges)
      modifies from
      ensures from.documents == old(from.documents) && from.rows == Detached(old(from.rows), appended)
    {
      var left := appended.Keys;
      var done: set<nat> := {};
      while left != {}
        invariant left !! done && left + done == appended.Keys
        invariant from.documents == old(from.documents)
        invariant from.rows == Detached(old(from.rows), map index | index in done && index in appended :: appended[index])
      {
        var index :| index in left;
        left, done := left - {index}, done + {index};
        if index in from.rows {
          from.rows := from.rows[index := Trim(from.rows[index], appended[index])];
        }
      }
      assert (map index | index in done && index in appended :: appended[index]) == appended;
    }
  }

  lemma {:induction false} OneMoreRegistration(regs: seq<Registration>, i: nat, sources: Sources, rows: Targets)
    requires i < |regs|
    ensures var reg := regs[i];
      var emitted := EmittedFor(reg, sources);
      var before := Applied(regs[..i], sources, rows);
      && Applied(regs[..i + 1], sources, rows) ==
         (if emitted == NO_ROWS then before else before[reg.index := Join(Resolve(before, reg.index), emitted)])
      && AppendedBy(regs[..i + 1], sources) ==
         (var b := AppendedBy(regs[..i], sources); if emitted == NO_ROWS then b else b[reg.index := CountsOf(emitted)])
      && IndexedBy(regs[..i + 1], sources) ==
         (var b := IndexedBy(regs[..i], sources); if Touched(reg, sources) then b[reg.source := IdsOf(reg, sources[reg.source].adds)] else b)
  {
    assert regs[..i + 1][..i] == regs[..i];
  }

  // ----- the loops -----

  method Build(fields: seq<Field>, count: Tokenizer, e: Entity, id: string) returns (rows: seq<Row>)
    ensures rows == BuildRows(fields, count, e, id)
  {
    rows := [];
    for i := 0 to |fields|
      invariant rows == BuildRows(fields[..i], count, e, id)
    {
      var counts := count(Read(e, fields[i].column));
      assert fields[..i + 1][..i] == fields[..i];
      ghost var before := rows;
      for j := 0 to |counts|
        invariant rows == AddTerms(before, counts[..j], fields[i].name, id)
      {
        assert counts[..j + 1][..j] == counts[..j];
        var key := Key(counts[j].term, fields[i].name, id);
        rows := Put(rows, Row(key, counts[j].term, fields[i].name, id, counts[j].frequency));
      }
      assert counts[..|counts|] == counts;
    }
    assert fields[..|fields|] == fields;
  }

  method Compare(before: seq<Row>, after: seq<Row>) returns (rows: Rows)
    ensures rows == Diff(before, after)
  {
    var adds, updates, removes := [], [], [];
    for i := 0 to |after|
      invariant Rows(adds, updates, []) == Arrivals(before, after[..i])
    {
      assert after[..i + 1][..i] == after[..i];
      var existing := Find(before, after[i].key);
      if existing.None? {
        adds := adds + [after[i]];
      } else if existing.value.frequency != after[i].frequency {
        updates := updates + [after[i]];
      }
    }
    for i := 0 to |before|
      invariant removes == Departures(before[..i], after)
    {
      assert before[..i + 1][..i] == before[..i];
      if Find(after, before[i].key).None? {
        removes := removes + [before[i]];
      }
    }
    assert after[..|after|] == after && before[..|before|] == before;
    rows := Rows(adds, updates, removes);
  }

  method EmitAdds(reg: Registration, adds: seq<Entity>, skip: set<string>) returns (rows: seq<Row>)
    ensures rows == AddRows(reg, adds, skip)
  {
    rows := [];
    for i := 0 to |adds|
      invariant rows == AddRows(reg, adds[..i], skip)
    {
      assert adds[..i + 1][..i] == adds[..i];
      var id := SourceId(reg, adds[i]);
      if id.Some? && id.value !in skip {
        var more := Build(reg.fields, reg.count, adds[i], id.value);
        rows := rows + more;
      }
    }
    assert adds[..|adds|] == adds;
  }

  method Emit(reg: Registration, d: Documents) returns (emitted: Rows)
    ensures emitted == Emitted(reg, d)
  {
    var adds := EmitAdds(reg, d.adds, {});
    var rows := NO_ROWS;
    for i := 0 to |d.updates|
      invariant rows == UpdateRows(reg, d.updates[..i])
    {
      assert d.updates[..i + 1][..i] == d.updates[..i];
      var u := d.updates[i];
      var id := SourceId(reg, u.entity);
      if id.Some? && u.previous.Some? {
        var changed := Changed(reg.fields, u.previous.value);
        if changed == [] {
          assert Join(rows, NO_ROWS) == rows;
        } else {
          var before := Build(changed, reg.count, u.previous.value, id.value);
          var after := Build(changed, reg.count, u.entity, id.value);
          var more := Compare(before, after);
          rows := Join(rows, more);
        }
      }
    }
    assert d.updates[..|d.updates|] == d.updates;
    var removes := EmitAdds(reg, d.removes, {});
    emitted := Rows(adds + rows.adds, rows.updates, rows.removes + removes);
  }

  // ----- appending and taking out -----

  lemma {:induction false} TrimUndoesJoin(mine: Rows, emitted: Rows)
    ensures Trim(Join(mine, emitted), CountsOf(emitted)) == mine
  {
    assert (mine.adds + emitted.adds)[..|mine.adds|] == mine.adds;
    assert (mine.updates + emitted.updates)[..|mine.updates|] == mine.updates;
    assert (mine.removes + emitted.removes)[..|mine.removes|] == mine.removes;
  }

  /** The registration has rows of this save to put under the index. */
  predicate Feeds(reg: Registration, sources: Sources, index: nat) {
    reg.index == index && EmittedFor(reg, sources) != NO_ROWS
  }

  /** The position of the last registration that feeds the index. */
  function LastFeeder(regs: seq<Registration>, sources: Sources, index: nat): (r: Option<nat>)
    ensures r.Some? ==> r.value < |regs| && Feeds(regs[r.value], sources, index)
    ensures r.Some? ==> forall i | r.value < i < |regs| :: !Feeds(regs[i], sources, index)
    ensures r.None? ==> forall i | 0 <= i < |regs| :: !Feeds(regs[i], sources, index)
  {
    if regs == [] then None
    else if Feeds(regs[|regs| - 1], sources, index) then Some(|regs| - 1)
    else LastFeeder(regs[..|regs| - 1], sources, index)
  }

  /** What all registrations but the last feeder leave under the index: all that is left once its rows are taken out. */
  lemma {:induction false} DetachedIs(regs: seq<Registration>, sources: Sources, rows: Targets, index: nat)
    ensures var last := LastFeeder(regs, sources, index);
      var left := Resolve(Detached(Applied(regs, sources, rows), AppendedBy(regs, sources)), index);
      && (index in AppendedBy(regs, sources) <==> last.Some?)
      && Resolve(Applied(regs, sources, rows), index) == (if last.Some? then Join(left, EmittedFor(regs[last.value], sources)) else left)
      && left == Resolve(Applied(regs[..if last.Some? then last.value else |regs|], sources, rows), index)
  {
    if regs != [] {
      var n := |regs| - 1;
      if Feeds(regs[n], sources, index) {
        TrimUndoesJoin(Resolve(Applied(regs[..n], sources, rows), index), EmittedFor(regs[n], sources));
        hide EmittedFor;
      } else {
        DetachedIs(regs[..n], sources, rows, index);
        OthersLeaveTheIndex(regs, sources, rows, index);
        var last := LastFeeder(regs[..n], sources, index);
        hide Applied, AppendedBy, EmittedFor;
        assert last.Some? ==> regs[..n][..last.value] == regs[..last.value];
        assert regs[..n][..n] == regs[..n] && regs[..n + 1] == regs;
      }
    }
  }

  lemma {:induction false} OthersLeaveTheIndex(regs: seq<Registration>, sources: Sources, rows: Targets, index: nat)
    requires regs != [] && !Feeds(regs[|regs| - 1], sources, index)
    ensures var before := regs[..|regs| - 1];
      var after, counts := Applied(regs, sources, rows), AppendedBy(regs, sources);
      && (index in after <==> index in Applied(before, sources, rows))
      && (index in after ==> after[index] == Applied(before, sources, rows)[index])
      && (index in counts <==> index in AppendedBy(before, sources))
      && (index in counts ==> counts[index] == AppendedBy(before, sources)[index])
  {
    hide EmittedFor;
  }

  function SizeOf(rows: Rows): nat { |rows.adds| + |rows.updates| + |rows.removes| }

  /** Appending leaves as many rows as there were exactly when nobody feeds the index. */
  lemma {:induction false} AppliedGrowsIff(regs: seq<Registration>, sources: Sources, rows: Targets, index: nat)
    ensures var before, after := Resolve(rows, index), Resolve(Applied(regs, sources, rows), index);
      && SizeOf(after) >= SizeOf(before) && (SizeOf(after) == SizeOf(before) ==> after == before)
      && (SizeOf(after) == SizeOf(before) <==> forall i | 0 <= i < |regs| :: !Feeds(regs[i], sources, index))
  {
    if regs != [] {
      var n := |regs| - 1;
      AppliedGrowsIff(regs[..n], sources, rows, index);
      assert forall i | 0 <= i < n :: regs[..n][i] == regs[i];
      SizeOfJoin(Resolve(Applied(regs[..n], sources, rows), index), EmittedFor(regs[n], sources));
    }
  }

  lemma {:induction false} SizeOfJoin(a: Rows, b: Rows)
    ensures SizeOf(Join(a, b)) == SizeOf(a) + SizeOf(b) && (SizeOf(b) == 0 <==> b == NO_ROWS)
  {
  }

  predicate AtMostOneFeeds(regs: seq<Registration>, sources: Sources, index: nat) {
    forall i, j | 0 <= i < j < |regs| :: !(Feeds(regs[i], sources, index) && Feeds(regs[j], sources, index))
  }

  /** Nobody downstream can tell that index rows rode along with a save, exactly when at most one declaration put rows under the index. */
  lemma {:induction false} DetachUndoesApplyIff(regs: seq<Registration>, sources: Sources, rows: Targets, index: nat)
    ensures Resolve(Detached(Applied(regs, sources, rows), AppendedBy(regs, sources)), index) == Resolve(rows, index) <==>
      AtMostOneFeeds(regs, sources, index)
  {
    DetachedIs(regs, sources, rows, index);
    var last := LastFeeder(regs, sources, index);
    var n := if last.Some? then last.value else |regs|;
    AppliedGrowsIff(regs[..n], sources, rows, index);
    assert forall i | 0 <= i < n :: regs[..n][i] == regs[i];
    hide Feeds, Applied, AppendedBy, Detached, SizeOf, Resolve;
    if i :| 0 <= i < n && Feeds(regs[..n][i], sources, index) {
      assert Feeds(regs[i], sources, index);
    }
  }

  /** Two declarations feeding one index would be miscounted: the first one's rows stay behind. */
  lemma {:induction false} SharedIndexIsMiscounted(a: Registration, b: Registration, sources: Sources, rows: Targets)
    requires a.index == b.index && EmittedFor(a, sources) != NO_ROWS && EmittedFor(b, sources) != NO_ROWS
    ensures Detached(Applied([a, b], sources, rows), AppendedBy([a, b], sources))[a.index] ==
            Join(Resolve(rows, a.index), EmittedFor(a, sources)) != Resolve(rows, a.index)
  {
    var one := Join(Resolve(rows, a.index), EmittedFor(a, sources));
    assert [a, b][..1] == [a] && [a][..0] == [];
    assert Applied([a], sources, rows) == rows[a.index := one];
    assert AppendedBy([a], sources) == map[a.index := CountsOf(EmittedFor(a, sources))];
    TrimUndoesJoin(one, EmittedFor(b, sources));
  }
}
