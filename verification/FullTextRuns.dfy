/**
 Several full-text declarations at once: the registry of
 datastore/src/collection-builder/fullTextSearch.ts over whole runs of saves, each collection
 with an index of its own.
 */
module FullTextRuns {
  import opened Options
  import opened FullText
  import opened FullTextProofs
  import opened FullTextPlugin

  /** One save over every collection, and what the plugin echoes of its adds. */
  datatype WideSave = WideSave(sources: Sources, echoed: Sources, landed: bool)

  /** The stored documents of each collection and the stored rows of each index. */
  datatype World = World(docs: map<nat, Library>, indexes: map<nat, Index>)

  const EMPTY := World(map[], map[])

  function DocumentsFor(sources: Sources, source: nat): Documents {
    if source in sources then sources[source] else Documents([], [], [])
  }

  function DocsOf(w: World, source: nat): Library { if source in w.docs then w.docs[source] else map[] }

  function IndexOf(w: World, index: nat): Index { if index in w.indexes then w.indexes[index] else map[] }

  /** One collection's part of a save. */
  function SaveFor(reg: Registration, save: WideSave): Save {
    Save(DocumentsFor(save.sources, reg.source), DocumentsFor(save.echoed, reg.source).adds, save.landed)
  }

  function SavesFor(reg: Registration, saves: seq<WideSave>): seq<Save> { seq(|saves|, i requires 0 <= i < |saves| => SaveFor(reg, saves[i])) }

  function DocsAfterAll(regs: seq<Registration>, w: World, save: WideSave): map<nat, Library> {
    if regs == [] then w.docs
    else
      var reg := regs[|regs| - 1];
      DocsAfterAll(regs[..|regs| - 1], w, save)[reg.source := DocsAfter(reg, DocsOf(w, reg.source), SaveFor(reg, save))]
  }

  /** The save's own rows, and then the deferred ones, land on every declared index. */
  function IndexesAfterAll(regs: seq<Registration>, w: World, rows: Targets, deferred: Targets): map<nat, Index> {
    if regs == [] then w.indexes
    else
      var index := regs[|regs| - 1].index;
      IndexesAfterAll(regs[..|regs| - 1], w, rows, deferred)
        [index := Patch(Patch(IndexOf(w, index), Resolve(rows, index)), Resolve(deferred, index))]
  }

  /** The registry appends its rows to the save, the backend lands it, and the deferred rows follow. */
  function AfterWideSave(regs: seq<Registration>, w: World, save: WideSave): World {
    if !save.landed then w
    else
      World(DocsAfterAll(regs, w, save),
            IndexesAfterAll(regs, w, Applied(regs, save.sources, map[]),
                            Deferred(regs, IndexedBy(regs, save.sources), save.echoed)))
  }

  function AfterWideSaves(regs: seq<Registration>, saves: seq<WideSave>): World {
    if saves == [] then EMPTY
    else AfterWideSave(regs, AfterWideSaves(regs, saves[..|saves| - 1]), saves[|saves| - 1])
  }

  predicate DistinctIndexes(regs: seq<Registration>) {
    forall i, j | 0 <= i < j < |regs| :: regs[i].index != regs[j].index
  }

  // ----- one declaration among the others -----

  lemma {:induction false} NothingEmitted(reg: Registration)
    ensures Emitted(reg, Documents([], [], [])) == NO_ROWS
  {
  }

  lemma {:induction false} EmittedForIs(reg: Registration, sources: Sources)
    ensures EmittedFor(reg, sources) == Emitted(reg, DocumentsFor(sources, reg.source))
  {
    NothingEmitted(reg);
    if !Touched(reg, sources) {
      assert DocumentsFor(sources, reg.source) == Documents([], [], []);
    }
  }

  lemma {:induction false} JoinToNothing(rows: Rows)
    ensures Join(NO_ROWS, rows) == rows
  {
  }

  lemma {:induction false} NotAmong(regs: seq<Registration>, sources: Sources, indexed: map<nat, set<string>>, echoed: Sources, index: nat)
    requires forall i | 0 <= i < |regs| :: regs[i].index != index
    ensures Resolve(Applied(regs, sources, map[]), index) == NO_ROWS
    ensures Resolve(Deferred(regs, indexed, echoed), index) == NO_ROWS
  {
    if regs != [] {
      NotAmong(regs[..|regs| - 1], sources, indexed, echoed, index);
    }
  }

  /** Under its own index stand the rows of the one declaration. */
  lemma {:induction false} AppliedFor(regs: seq<Registration>, sources: Sources, indexed: map<nat, set<string>>, echoed: Sources, i: nat)
    requires DistinctIndexes(regs) && i < |regs|
    ensures Resolve(Applied(regs, sources, map[]), regs[i].index) == EmittedFor(regs[i], sources)
    ensures Resolve(Deferred(regs, indexed, echoed), regs[i].index) ==
      Rows(AddRows(regs[i], DocumentsFor(echoed, regs[i].source).adds, Skipped(indexed, regs[i].source)), [], [])
  {
    var n := |regs| - 1;
    assert forall k | 0 <= k < n :: regs[..n][k] == regs[k];
    hide EmittedFor, AddRows;
    if i < n {
      AppliedFor(regs[..n], sources, indexed, echoed, i);
    } else {
      NotAmong(regs[..n], sources, indexed, echoed, regs[n].index);
      JoinToNothing(EmittedFor(regs[n], sources));
      JoinToNothing(Rows(AddRows(regs[n], DocumentsFor(echoed, regs[n].source).adds, Skipped(indexed, regs[n].source)), [], []));
      NothingToAdd(regs[n], Skipped(indexed, regs[n].source));
    }
  }

  lemma {:induction false} NothingToAdd(reg: Registration, skip: set<string>)
    ensures AddRows(reg, [], skip) == []
  {
  }

  /** What the registry remembers of a collection's adds is their ids. */
  lemma {:induction false} IndexedFor(regs: seq<Registration>, sources: Sources, i: nat)
    requires DistinctSources(regs) && i < |regs|
    ensures Skipped(IndexedBy(regs, sources), regs[i].source) == IdsOf(regs[i], DocumentsFor(sources, regs[i].source).adds)
  {
    var n := |regs| - 1;
    assert forall k | 0 <= k < n :: regs[..n][k] == regs[k];
    if i < n {
      IndexedFor(regs[..n], sources, i);
    } else {
      NotIndexed(regs[..n], sources, regs[n].source);
    }
  }

  lemma {:induction false} NotIndexed(regs: seq<Registration>, sources: Sources, source: nat)
    requires forall i | 0 <= i < |regs| :: regs[i].source != source
    ensures Skipped(IndexedBy(regs, sources), source) == {}
  {
    if regs != [] {
      NotIndexed(regs[..|regs| - 1], sources, source);
    }
  }

  lemma {:induction false} DocumentsStored(regs: seq<Registration>, w: World, save: WideSave, i: nat)
    requires DistinctSources(regs) && i < |regs|
    ensures var source, after := regs[i].source, DocsAfterAll(regs, w, save);
      source in after && after[source] == DocsAfter(regs[i], DocsOf(w, source), SaveFor(regs[i], save))
  {
    var n := |regs| - 1;
    hide DocsAfter, SaveFor, DocsOf;
    if i < n {
      assert regs[i].source != regs[n].source;
      assert forall k | 0 <= k < n :: regs[..n][k] == regs[k];
      DocumentsStored(regs[..n], w, save, i);
    }
  }

  lemma {:induction false} RowsStored(regs: seq<Registration>, w: World, rows: Targets, deferred: Targets, i: nat)
    requires DistinctIndexes(regs) && i < |regs|
    ensures var index, after := regs[i].index, IndexesAfterAll(regs, w, rows, deferred);
      index in after && after[index] == Patch(Patch(IndexOf(w, index), Resolve(rows, index)), Resolve(deferred, index))
  {
    var n := |regs| - 1;
    hide Patch, IndexOf, Resolve;
    if i < n {
      assert regs[i].index != regs[n].index;
      assert forall k | 0 <= k < n :: regs[..n][k] == regs[k];
      RowsStored(regs[..n], w, rows, deferred, i);
    }
  }

  /** The deferred rows of each collection are those of the adds its save could not index. */
  lemma {:induction false} DeferredRowsComplete(regs: seq<Registration>, save: WideSave, i: nat)
    requires DistinctSources(regs) && DistinctIndexes(regs) && i < |regs|
    ensures Resolve(Deferred(regs, IndexedBy(regs, save.sources), save.echoed), regs[i].index) ==
      Rows(DeferredRows(regs[i], SaveFor(regs[i], save)), [], [])
  {
    AppliedFor(regs, save.sources, IndexedBy(regs, save.sources), save.echoed, i);
    IndexedFor(regs, save.sources, i);
  }

  function StoreOf(reg: Registration, w: World): Store { Store(DocsOf(w, reg.source), IndexOf(w, reg.index)) }

  /** A save over all collections does to each what its own part does alone. */
  lemma {:induction false} WideSaveIsEachSave(regs: seq<Registration>, w: World, save: WideSave, i: nat)
    requires DistinctSources(regs) && DistinctIndexes(regs) && i < |regs|
    ensures StoreOf(regs[i], AfterWideSave(regs, w, save)) == AfterSave(regs[i], StoreOf(regs[i], w), SaveFor(regs[i], save))
  {
    if save.landed {
      var indexed := IndexedBy(regs, save.sources);
      DocumentsStored(regs, w, save, i);
      RowsStored(regs, w, Applied(regs, save.sources, map[]), Deferred(regs, indexed, save.echoed), i);
      AppliedFor(regs, save.sources, indexed, save.echoed, i);
      DeferredRowsComplete(regs, save, i);
      EmittedForIs(regs[i], save.sources);
      hide DocsAfter, Patch, Emitted, Applied, Deferred, IndexedBy, EmittedFor, DocsAfterAll, IndexesAfterAll;
    }
  }

  lemma {:induction false} WideRunIsEachRun(regs: seq<Registration>, saves: seq<WideSave>, i: nat)
    requires DistinctSources(regs) && DistinctIndexes(regs) && i < |regs|
    ensures StoreOf(regs[i], AfterWideSaves(regs, saves)) == AfterSaves(regs[i], Store(map[], map[]), SavesFor(regs[i], saves))
  {
    if saves != [] {
      var n := |saves| - 1;
      WideRunIsEachRun(regs, saves[..n], i);
      WideSaveIsEachSave(regs, AfterWideSaves(regs, saves[..n]), saves[n], i);
      assert SavesFor(regs[i], saves)[..n] == SavesFor(regs[i], saves[..n]);
      hide AfterWideSave, AfterSave, StoreOf;
    }
  }

  /**
   The main result for many collections: declared once each and with an index each, every one's
   index is what a rebuild of its documents gives, whatever the others save beside it.
   */
  lemma {:induction false} EveryIndexEqualsItsRebuild(regs: seq<Registration>, saves: seq<WideSave>, i: nat, listing: seq<Entity>)
    requires DistinctSources(regs) && DistinctIndexes(regs) && i < |regs|
    requires Proper(regs[i]) && SavesAreRight(regs[i], Store(map[], map[]), SavesFor(regs[i], saves))
    requires Lists(regs[i], listing, DocsOf(AfterWideSaves(regs, saves), regs[i].source))
    ensures IndexOf(AfterWideSaves(regs, saves), regs[i].index) == Table(Rebuild(regs[i], listing))
  {
    WideRunIsEachRun(regs, saves, i);
    hide AfterWideSaves, AfterSaves, Rebuild, Proper, Lists;
    IndexEqualsRebuild(regs[i], SavesFor(regs[i], saves), listing);
  }
}
