/**
 The change tracker of datastore/src/change-tracking/ChangeTracker.ts as an object: attachments
 by id and an `ImmutableUpdates` beside them. Its loops are proved to do what `SaveLifecycle` says.
 */
module ChangeTracker {
  import opened Options
  import opened Patch
  import opened ProxyTracking
  import opened SaveLifecycle
  import I = ImmutableUpdates

  datatype Sent = Sent(id: string, update: EntityUpdate)

  datatype Echoed = Echoed(id: string, row: Fields)

  /** A list names each entry of a map once, in some order. */
  predicate Lists(s: seq<Sent>, m: map<string, EntityUpdate>) {
    && (forall i, j | 0 <= i < j < |s| :: s[i].id != s[j].id)
    && (forall x | x in s :: x.id in m && m[x.id] == x.update)
    && (forall id | id in m :: Sent(id, m[id]) in s)
  }

  function RowsOf(echo: seq<Echoed>): Rows {
    if echo == [] then map[] else RowsOf(echo[..|echo| - 1])[echo[|echo| - 1].id := echo[|echo| - 1].row]
  }

  predicate DistinctEchoes(echo: seq<Echoed>) {
    forall i, j | 0 <= i < j < |echo| :: echo[i].id != echo[j].id
  }

  class ChangeTracker {
    const schema: Schema
    const immutable: I.ImmutableUpdates
    var canonicalAttachments: map<string, Attachment>
    var additions: seq<Fields>
    var removals: seq<Fields>

    constructor (schema: Schema)
      ensures this.schema == schema && fresh(immutable)
      ensures View() == Tracker(map[], map[], [], [])
    {
      this.schema := schema;
      immutable := new I.ImmutableUpdates();
      canonicalAttachments := map[];
      additions, removals := [], [];
    }

    function View(): Tracker
      reads this, immutable
    {
      Tracker(canonicalAttachments, immutable.pending, additions, removals)
    }

    /** One pass over attachments, then rows pending elsewhere are dropped, then those are appended. */
    method GetAttachmentsChanges() returns (changes: seq<Sent>)
      ensures Lists(changes, Emitted(schema, View()))
    {
      changes := ScanAttachments();
      ghost var dirty := DirtyOnes(schema, canonicalAttachments);
      FilterLists(changes, dirty, immutable.pending);
      if |immutable.pending| > 0 && |changes| > 0 {
        changes := DropPending(changes);
      } else {
        NothingToDrop(changes, dirty, immutable.pending);
      }
      changes := AppendPending(changes, Without(dirty, immutable.pending));
      EmittedIs(schema, View());
    }

    method ScanAttachments() returns (changes: seq<Sent>)
      ensures Lists(changes, DirtyOnes(schema, canonicalAttachments))
    {
      changes := [];
      var left := canonicalAttachments.Keys;
      ghost var seen: map<string, Attachment> := map[];
      while left != {}
        invariant left !! seen.Keys && left + seen.Keys == canonicalAttachments.Keys
        invariant forall id | id in seen :: seen[id] == canonicalAttachments[id]
        invariant Lists(changes, DirtyOnes(schema, seen))
      {
        var id :| id in left;
        left := left - {id};
        var a := canonicalAttachments[id];
        OneMoreDirty(schema, changes, seen, id, a);
        seen := seen[id := a];
        if Dirty(schema, a) {
          changes := changes + [Sent(id, UpdateOf(schema, a))];
        }
      }
      assert seen == canonicalAttachments;
    }

    /** Removes, from the back, every change whose row is pending. */
    method DropPending(changes: seq<Sent>) returns (kept: seq<Sent>)
      ensures kept == Filter(changes, immutable.pending)
    {
      hide Filter;
      kept := changes;
      var i := |changes|;
      FilterOfNone(immutable.pending);
      assert changes[i..] == [] && changes[..i] == changes;
      while i > 0
        invariant 0 <= i <= |changes| && kept == changes[..i] + Filter(changes[i..], immutable.pending)
      {
        i := i - 1;
        FilterOneMore(changes, i, immutable.pending);
        if kept[i].id in immutable.pending {
          kept := kept[..i] + kept[i + 1..];
        }
      }
      assert changes[0..] == changes;
    }

    method AppendPending(changes: seq<Sent>, ghost before: map<string, EntityUpdate>) returns (r: seq<Sent>)
      requires Lists(changes, before) && before.Keys !! immutable.pending.Keys
      ensures Lists(r, before + AllPending(schema, immutable.pending))
    {
      r := changes;
      var left := immutable.pending.Keys;
      ghost var seen: PendingMap := map[];
      assert before + AllPending(schema, seen) == before;
      while left != {}
        invariant left !! seen.Keys && left + seen.Keys == immutable.pending.Keys
        invariant forall id | id in seen :: seen[id] == immutable.pending[id]
        invariant Lists(r, before + AllPending(schema, seen))
      {
        var id :| id in left;
        left := left - {id};
        OneMorePending(schema, r, before, seen, id, immutable.pending[id]);
        seen := seen[id := immutable.pending[id]];
        r := r + [Sent(id, PendingUpdate(schema, immutable.pending[id]))];
      }
      assert seen == immutable.pending;
    }

    /** The echo of a save, merged row by row. */
    method MergeChanges(updates: seq<Echoed>)
      requires DistinctEchoes(updates) && forall u | u in updates :: u.id in canonicalAttachments
      modifies this
      ensures View() == Merged(schema, old(View()), RowsOf(updates))
    {
      ghost var start := View();
      assert canonicalAttachments == Merged(schema, start, RowsOf(updates[..0])).attachments;
      for i := 0 to |updates|
        invariant immutable.pending == start.pending && additions == start.additions && removals == start.removals
        invariant canonicalAttachments == Merged(schema, start, RowsOf(updates[..i])).attachments
      {
        var u := updates[i];
        var found := canonicalAttachments[u.id];
        MergeOneMore(schema, start, updates, i);
        if u.id in immutable.pending {
          canonicalAttachments := canonicalAttachments[u.id := Attached(schema, u.row)];
        } else {
          var doc := Adopted(found.doc, u.row);
          var snapshot := if found.snapshot.Some? then Some(doc) else None;
          var tracking := found.tracking;
          if tracking.Some? {
            tracking := Some(tracking.value.(changes := map[], original := map[], isDirty := false));
          }
          canonicalAttachments := canonicalAttachments[u.id := Attachment(doc, NotModified, tracking, snapshot)];
        }
      }
      assert updates[..|updates|] == updates;
    }

    method UpdateImmutable(id: string, recipe: Recipe) returns (next: Option<Fields>)
      modifies immutable
      ensures View() == old(View()).(pending := After(old(immutable.pending), Op.Update(id, recipe,
          if id in canonicalAttachments then Some(canonicalAttachments[id].doc) else None)))
      ensures next.Some? <==> id in old(immutable.pending) || id in canonicalAttachments
      ensures next.Some? ==> id in immutable.pending && next.value == immutable.pending[id].current
    {
      next := immutable.Update(id, recipe, if id in canonicalAttachments then Some(canonicalAttachments[id].doc) else None);
    }

    method MarkDirty(ids: seq<string>)
      requires forall id | id in ids :: id in canonicalAttachments
      modifies this
      ensures immutable.pending == old(immutable.pending) && additions == old(additions) && removals == old(removals)
      ensures canonicalAttachments == Marked(old(canonicalAttachments), ids)
    {
      for i := 0 to |ids|
        invariant additions == old(additions) && removals == old(removals)
        invariant canonicalAttachments == Marked(old(canonicalAttachments), ids[..i])
      {
        assert ids[..i + 1] == ids[..i] + [ids[i]];
        canonicalAttachments := canonicalAttachments[ids[i] := canonicalAttachments[ids[i]].(changeType := MarkedDirty)];
      }
      assert ids[..|ids|] == ids;
    }

    /** Pending patches, additions and removals go; attachments keep what they recorded. */
    method ClearChanges()
      modifies this, immutable
      ensures View() == SaveLifecycle.ClearChanges(old(View()))
    {
      additions := [];
      removals := [];
      immutable.Clear();
    }

    method HasAttachmentsChanges() returns (hasChanges: bool)
      ensures hasChanges == SaveLifecycle.HasAttachmentsChanges(schema, View())
    {
      hasChanges := false;
      var left := canonicalAttachments.Keys;
      while left != {} && !hasChanges
        invariant left <= canonicalAttachments.Keys
        invariant hasChanges ==> SaveLifecycle.HasAttachmentsChanges(schema, View())
        invariant !hasChanges ==> forall id | id in canonicalAttachments && id !in left ::
          !TrackingDirty(canonicalAttachments[id]) && canonicalAttachments[id].changeType.NotModified? && !SnapshotDirty(schema, canonicalAttachments[id])
        decreases |left|
      {
        var id :| id in left;
        left := left - {id};
        var a := canonicalAttachments[id];
        if TrackingDirty(a) || !a.changeType.NotModified? || SnapshotDirty(schema, a) {
          hasChanges := true;
        }
      }
    }
  }

  function Marked(attachments: map<string, Attachment>, ids: seq<string>): map<string, Attachment> {
    map id | id in attachments :: if id in ids then attachments[id].(changeType := MarkedDirty) else attachments[id]
  }

  function DirtyOnes(schema: Schema, attachments: map<string, Attachment>): map<string, EntityUpdate> {
    map id | id in attachments && Dirty(schema, attachments[id]) :: UpdateOf(schema, attachments[id])
  }

  function AllPending(schema: Schema, pending: PendingMap): map<string, EntityUpdate> {
    map id | id in pending :: PendingUpdate(schema, pending[id])
  }

  function Without(m: map<string, EntityUpdate>, pending: PendingMap): map<string, EntityUpdate> {
    map id | id in m && id !in pending :: m[id]
  }

  function Filter(s: seq<Sent>, pending: PendingMap): (r: seq<Sent>)
    ensures forall x :: x in r <==> x in s && x.id !in pending
  {
    if s == [] then []
    else
      assert forall x :: x in s <==> x == s[0] || x in s[1..];
      if s[0].id in pending then Filter(s[1..], pending) else [s[0]] + Filter(s[1..], pending)
  }

  predicate DistinctSent(s: seq<Sent>) { forall i, j | 0 <= i < j < |s| :: s[i].id != s[j].id }

  lemma {:induction false} FilterOfNone(pending: PendingMap)
    ensures Filter([], pending) == []
  {
  }

  /** One more from the back: it stays, or is spliced out. */
  lemma {:induction false} FilterOneMore(s: seq<Sent>, i: nat, pending: PendingMap)
    requires i < |s|
    ensures var kept := s[..i + 1] + Filter(s[i + 1..], pending);
      kept[i] == s[i] && s[..i] + Filter(s[i..], pending) == if s[i].id in pending then kept[..i] + kept[i + 1..] else kept
  {
    var rest := Filter(s[i + 1..], pending);
    assert s[i..][1..] == s[i + 1..] && s[i..][0] == s[i];
    assert Filter(s[i..], pending) == if s[i].id in pending then rest else [s[i]] + rest;
    hide Filter;
    SplicedOut(s, i, rest);
  }

  lemma {:induction false} SplicedOut(s: seq<Sent>, i: nat, rest: seq<Sent>)
    requires i < |s|
    ensures var kept := s[..i + 1] + rest;
      kept[i] == s[i] && kept == s[..i] + ([s[i]] + rest) && kept[..i] + kept[i + 1..] == s[..i] + rest
  {
    var kept := s[..i + 1] + rest;
    assert s[..i + 1] == s[..i] + [s[i]];
    assert kept[i + 1..] == rest && kept[..i] == s[..i];
  }

  lemma {:induction false} FilterIsDistinct(s: seq<Sent>, pending: PendingMap)
    requires DistinctSent(s)
    ensures DistinctSent(Filter(s, pending))
  {
    if s != [] {
      FilterIsDistinct(s[1..], pending);
      var rest := Filter(s[1..], pending);
      forall i | 0 <= i < |rest|
        ensures rest[i].id != s[0].id
      {
        assert rest[i] in s[1..];
      }
    }
  }

  lemma {:induction false} FilterLists(s: seq<Sent>, m: map<string, EntityUpdate>, pending: PendingMap)
    requires Lists(s, m)
    ensures Lists(Filter(s, pending), Without(m, pending))
  {
    FilterIsDistinct(s, pending);
    forall id | id in Without(m, pending)
      ensures Sent(id, m[id]) in Filter(s, pending)
    {
      assert Sent(id, m[id]) in s;
    }
  }

  lemma {:induction false} OneMoreDirty(schema: Schema, changes: seq<Sent>, seen: map<string, Attachment>, id: string, a: Attachment)
    requires Lists(changes, DirtyOnes(schema, seen)) && id !in seen
    ensures Lists(if Dirty(schema, a) then changes + [Sent(id, UpdateOf(schema, a))] else changes, DirtyOnes(schema, seen[id := a]))
  {
    hide Lists;
    var before := DirtyOnes(schema, seen);
    if Dirty(schema, a) {
      AppendLists(changes, before, id, UpdateOf(schema, a));
      assert DirtyOnes(schema, seen[id := a]) == before[id := UpdateOf(schema, a)];
    } else {
      assert DirtyOnes(schema, seen[id := a]) == before;
    }
  }

  lemma {:induction false} OneMorePending(schema: Schema, changes: seq<Sent>, before: map<string, EntityUpdate>, seen: PendingMap,
                                          id: string, u: Pending)
    requires Lists(changes, before + AllPending(schema, seen)) && id !in seen && id !in before
    ensures Lists(changes + [Sent(id, PendingUpdate(schema, u))], before + AllPending(schema, seen[id := u]))
  {
    hide Lists;
    AppendLists(changes, before + AllPending(schema, seen), id, PendingUpdate(schema, u));
    assert before + AllPending(schema, seen[id := u]) == (before + AllPending(schema, seen))[id := PendingUpdate(schema, u)];
  }

  lemma {:induction false} EmittedIs(schema: Schema, t: Tracker)
    ensures Emitted(schema, t) == Without(DirtyOnes(schema, t.attachments), t.pending) + AllPending(schema, t.pending)
  {
  }

  lemma {:induction false} NothingToDrop(s: seq<Sent>, m: map<string, EntityUpdate>, pending: PendingMap)
    requires Lists(s, m) && (|pending| == 0 || |s| == 0)
    ensures Without(m, pending) == m
  {
    if |pending| == 0 {
      assert pending == map[];
    } else {
      assert forall x: Sent :: x !in s;
      assert forall id :: id !in m;
    }
  }

  lemma {:induction false} AppendLists(s: seq<Sent>, m: map<string, EntityUpdate>, id: string, u: EntityUpdate)
    requires Lists(s, m) && id !in m
    ensures Lists(s + [Sent(id, u)], m[id := u])
  {
    var m' := m[id := u];
    var s' := s + [Sent(id, u)];
    assert s'[|s|] == Sent(id, u);
    forall k | k in m'
      ensures Sent(k, m'[k]) in s'
    {
      if k != id {
        assert Sent(k, m[k]) in s;
      }
    }
  }

  lemma {:induction false} EchoIds(echo: seq<Echoed>)
    ensures forall id :: id in RowsOf(echo) <==> exists i | 0 <= i < |echo| :: echo[i].id == id
  {
    if echo != [] {
      EchoIds(echo[..|echo| - 1]);
      assert echo == echo[..|echo| - 1] + [echo[|echo| - 1]];
    }
  }

  lemma {:induction false} MergeOneMore(schema: Schema, t: Tracker, echo: seq<Echoed>, i: nat)
    requires i < |echo| && DistinctEchoes(echo) && echo[i].id in t.attachments
    ensures var id := echo[i].id;
      var before := Merged(schema, t, RowsOf(echo[..i])).attachments;
      && id in before && before[id] == t.attachments[id]
      && Merged(schema, t, RowsOf(echo[..i + 1])).attachments ==
         before[id := if id in t.pending then Attached(schema, echo[i].row) else Settled(t.attachments[id], echo[i].row)]
  {
    EchoIds(echo[..i]);
    assert echo[..i + 1][..i] == echo[..i];
    assert echo[i].id !in RowsOf(echo[..i]);
  }
}
