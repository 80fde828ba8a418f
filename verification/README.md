# Routier, modelled in Dafny

Routier is a TypeScript data toolkit: a store tracks edits to entities, turns them into one save,
and hands the save to a stack of storage plugins. This project models the state machines between
the change tracker and the storage plugin and proves what each promises. Each mutating object of
the source is a Dafny class whose methods are proved against a specification function, and the
properties are lemmas about those functions. `dafny verify dfyconfig.toml` checks everything.

| files | what they model |
|---|---|
| `Batching*.dfy` | the write queue of `BatchingDbPlugin`: merging, splitting, falling back, teardown |
| `Persist*.dfy` | the in-memory save of `EphemeralDataPlugin` with its undo log, over `MemoryDataCollection` |
| `Concurrency*.dfy` | `ConcurrencyDbPlugin`: observed versions of any number of stores over one backend |
| `OverlappingSaves.dfy` | the same over shared memory, with save callbacks that come late |
| `Expressions`, `Grammar`, `FilterSyntax`, `ParserRoundTrip`, `FilterMeaning`, `FilterParser` | the filter compiler and evaluator |
| `TemplateCache.dfy` | the cache of parsed filters inside `toExpression` |
| `FullText*.dfy` | maintenance of the full-text indexes, save by save, for one collection and for many |
| `Patch.dfy`, `ImmutableUpdates.dfy` | the patch algebra and pending immutable updates |
| `ProxyTracking.dfy` | the write trap around a tracked entity |
| `SaveLifecycle.dfy`, `ChangeTracker.dfy` | edits, the emitted updates, the backend, the echo, and back to clean |
| `Pipeline.dfy` | the trampoline pipelines |
| `Cache*.dfy` | the LRU read cache of `CacheDbPlugin` |
| `KeyLookup.dfy` | the key-equality short cut of a query |
| `Strings.dfy` | the occurrence counter and the string hash |

What the source leaves to others is a parameter here: the inner plugin of the batching and caching
wrappers, the outcome of each load and save, generated text ids, the hash of an entity, the
tokenizer, and the JavaScript primitives (numerals, coercions, loose equality across kinds, string
order, case mapping) gathered in `Expressions.Js`.

Where a promise of the source's comments is stronger than its code, the code is kept, an input that
breaks the promise is given, and the condition under which it holds is proved. The findings:

- The undo of an add is a plain remove, so a failed save restores everything exactly when no add
  reuses a stored key (`FailedSaveLeavesNothing`, `FailedAddOverARecordLosesIt`); and a key updated
  into existence is not seen by the number generator, which hands it out again
  (`UpsertThenAddOverwrites`).
- After a conflict the observed version is dropped, so a retry without a read is unchecked
  (`RetryWithoutReadingOverwrites`). No update is lost exactly when every save that goes through
  updates only observed rows (`NoUpdateIsLostIff`).
- Memory changes before the save callback comes, so a save that fails late reverts what another
  store committed in the meantime (`LateFailureLosesACommit`, `OverlapsAreHarmlessIff`).
- The template cache is keyed without the presence of params (`ParamPresenceIsNotInTheKey`,
  `AbsorbedParamAnswersWithoutParams`, `CachingIsTransparentIff`), and a name that is unknown
  through one param value poisons the template for all, until the cache is emptied
  (`UnknownNameThroughParamPoisonsTheCache`, `ComputedKeyIsTransparentIff`).
- Stacked case methods keep only the last; a bare property that is no boolean is not truthiness; a
  negated filter that is always true is refused (`FilterMeaning`).
- A property set to null and then set again loses its recorded original (`NullForgetsTheOriginal`).
  The next update reports null as its past, so an index keeps what the old value put into it
  (`NullThenValueMisreportsThePast`); and null, a value, and null again empties the record: the
  caller sees null, `hasChanges` is false, and no save ever stores it
  (`NullThereAndBackLosesTheEdit`, `WrittenRowIsStoredIff`).
- An accumulated patch differs from its steps when an object passes through a plain value
  (`PatchesComposeIff`), and an updater that drops a key goes unseen (`DroppedKeyIsNotSeen`).
- A row edited both through its proxy and through an update stores only the update
  (`MixedModesLoseTheProxyEdit`); a row marked dirty by hand reports its new values as its previous
  ones (`AttachmentPreviousIsTrueIff`); `hasChanges` consults a change type that no save resets
  unless it emits the row (`HasChangesAgreesIff`).
- A diff collection notices a mutation only through a content hash that joins the values' texts
  without a separator and leaves keys out, so ordinary edits are lost with `hasChanges` false
  (`JoinedTextsLoseTheEdit`, `LeftOutRootsAreUnnoticed`, `SaveConvergesIff`). Edits made while a
  save is out are lost with the echo (`EditInFlightSurvivesIff`).
- Two terms share a row key exactly when the code of one, with its field, begins the code of the
  other (`KeysCollideIff`), and then some documents have no index at all
  (`CollidingCodesHaveNoIndex`). Two declarations that put rows under one index are miscounted when
  their rows are taken out (`DetachUndoesApplyIff`). A repair of the index compares keys and
  frequencies only (`RepairRestoresIff`).
- A `done` that throws is called again with its own error (`DoneOnceIff`).
- A read that overlaps a write's commit leaves a stale cache entry (`OverlapServesStale`,
  `ReadBeforeTheCommitServesStale`), and queries of one description share an entry
  (`SharedDescriptionServesAnother`). A second miss of one query does not count as a use
  (`TwinKeepsOrderIff`).
- The key short cut misses every kept record that is not filed under the literal's own string form
  (`ShortCutIsExactIff`), such as the one a case method on the literal names
  (`TransformedLiteralIsMissed`).
- A one-character term is counted inside words, against the counter's documentation
  (`OneLetterIsWholeWordIff`).

## Model

| member | source | states |
|---|---|---|
| BatchingSafety.BatchingIsInvisible | core/src/plugins/BatchingDbPlugin.ts:180-403 | for every interleaving of arrivals, completions, deliveries and destroys, with any batch size and any mix of merged success and failure, once the queue is idle the database and every answer are those of writing the answered items one at a time in arrival order |
| BatchingSafety.AnsweredExactlyOnce | core/src/plugins/BatchingDbPlugin.ts:119-222 | at rest every accepted write was answered once, in order, either from the drain or by the teardown |
| BatchingSafety.OneWriteAtATimeAndDestroyLast | core/src/plugins/BatchingDbPlugin.ts:156-222 | at most one inner write is out; the latch is up exactly while a drain runs, and down only with an empty queue; the inner destroy happens once, after the write in flight has settled |
| BatchingSafety.NothingAfterDestroy | core/src/plugins/BatchingDbPlugin.ts:119-178 | after the inner destroy no step writes, changes the database or accepts a write |
| BatchingSafety.RunsWithoutCallersEnd | core/src/plugins/BatchingDbPlugin.ts:299-403 | without new calls the wrapper comes to rest, within a bound that the work at hand gives |
| BatchingSafety.StepKeepsInv | core/src/plugins/BatchingDbPlugin.ts:119-416 | each step of the machine keeps conservation of writes, refinement, the latch and the teardown state |
| BatchingProofs.PrepareIsOrderedAndDisjoint | core/src/plugins/BatchingDbPlugin.ts:236-264 | the groups concatenate to the batch, schemas are disjoint within a group, and a group ends only where the next item would clash |
| BatchingProofs.MergedKeys | core/src/plugins/BatchingDbPlugin.ts:268-297 | a merged operation names exactly the items' schemas |
| BatchingProofs.MergedHoldsEachItem | core/src/plugins/BatchingDbPlugin.ts:268-297 | under each schema it holds the entry of the last item that has one, so that each of several disjoint items keeps its own changes and schemas |
| BatchingProofs.MergedWriteIsSequential | core/src/plugins/BatchingDbPlugin.ts:299-370 | over an inner plugin that leaves nothing behind on failure, one merged write does what its items one by one would do, tables and answers alike |
| BatchingSafety.SplitIsSequential | core/src/plugins/BatchingDbPlugin.ts:330-370 | splitting a merged result by schema gives each caller the answer its own write would have had |
| BatchingPlugin.BatchingDbPlugin.BulkPersist | core/src/plugins/BatchingDbPlugin.ts:119-154 | a submitted write is the machine's arrival step on the object's fields |
| BatchingPlugin.BatchingDbPlugin.DrainQueue | core/src/plugins/BatchingDbPlugin.ts:180-222 | taking a batch off the queue and planning it, against the specification |
| BatchingPlugin.BatchingDbPlugin.InnerCallback | core/src/plugins/BatchingDbPlugin.ts:310-403 | the inner plugin's reply either splits over the merged items, falls back to them one by one, or answers the single one |
| BatchingPlugin.BatchingDbPlugin.ContinuePlan | core/src/plugins/BatchingDbPlugin.ts:299-403 | with its answers given a drain goes on to the next item, the next group, the next batch, or rest |
| BatchingPlugin.BatchingDbPlugin.DestroyAll | core/src/plugins/BatchingDbPlugin.ts:156-175 | a destroy closes the queue and takes over what was in it |
| BatchingPlugin.PrepareGroups | core/src/plugins/BatchingDbPlugin.ts:236-264 | the grouping loop with its claimed set computes the greedy grouping |
| BatchingPlugin.SplitResult | core/src/plugins/BatchingDbPlugin.ts:299-370 | the loop over items computes the split of a reply |
| PersistProofs.FailedSaveLeavesNothing | core/src/plugins/EphemeralDataPlugin.ts:77-256 | whatever fails (load, check, any mutation, any save callback), every collection's records are as before if and only if a load failed, a conflict was found, or no add up to the first mutation that throws is to use a key stored before the save, a generated key being the counter's next |
| PersistProofs.GeneratedAddsFailCleanly | core/src/plugins/EphemeralDataPlugin.ts:176-256 | so it is for every save whose adds all have their numbers generated under covering counters |
| PersistProofs.FailedAddOverARecordLosesIt | core/src/plugins/EphemeralDataPlugin.ts:194-200 | the input on which a failed save takes a stored record with it |
| PersistProofs.RevertIsExactIffAddsAreNew | core/src/plugins/EphemeralDataPlugin.ts:176-225 | replaying the undo log backwards restores all records exactly when the adds were new |
| PersistProofs.LostSlots | core/src/plugins/EphemeralDataPlugin.ts:182-200 | the keys an undo loses are exactly those an add overwrote |
| PersistProofs.SuccessfulSaveAppliesEverything | core/src/plugins/EphemeralDataPlugin.ts:189-256 | a successful save is each schema's adds, then updates, then removes, in order, and all of it is on disk |
| PersistProofs.LastMutationWins | core/src/plugins/EphemeralDataPlugin.ts:189-225 | after a run of mutations each record is what the last mutation of its key left |
| PersistProofs.FailedSaveOnDisk | core/src/plugins/EphemeralDataPlugin.ts:227-256 | what a failing save leaves on each collection's disk: reverted only where a save had gone through and its re-save succeeds |
| PersistProofs.GeneratedIdsAreNew | core/src/collections/MemoryDataCollection.ts:33-78 | a generated number is unused as long as the counter covers the stored ones, and stays covering |
| PersistProofs.UpdateKeepsCoverIff | core/src/collections/MemoryDataCollection.ts:164-167 | an update keeps the counter covering exactly when its number is not above it |
| PersistProofs.UpsertThenAddOverwrites | core/src/collections/MemoryDataCollection.ts:33-78 | the input on which a generated number overwrites a record |
| PersistPlugin.MemoryDataCollection.Add | core/src/collections/MemoryDataCollection.ts:131-134 | an add files the record under its own or a generated key and moves the counter |
| PersistPlugin.MemoryDataCollection.AddIfAbsent | core/src/collections/MemoryDataCollection.ts:141-148 | a hydrated record is filed only under a free key, and moves the counter either way |
| PersistProofs.HydrationNeverClobbers | core/src/collections/MemoryDataCollection.ts:136-148 | reading a file in leaves every record in memory as it is, brings every keyed record of the file, and keeps the counter covering |
| PersistPlugin.ApplyAll | core/src/plugins/EphemeralDataPlugin.ts:189-225 | the mutation loop over mutable collections, with its undo array, computes the applied state |
| PersistPlugin.RevertAll | core/src/plugins/EphemeralDataPlugin.ts:182-186 | the backwards undo loop computes the reverted state |
| PersistPlugin.BulkPersistAll | core/src/plugins/EphemeralDataPlugin.ts:77-256 | the whole save over mutable collections, every outcome included |
| ConcurrencyProofs.NoUpdateIsLostIff | core/src/plugins/ConcurrencyDbPlugin.ts:75-175 | over every run of any number of stores, without removes, with new keys for adds and one change per row and save: each committed update replaced the very record its store had last seen, one version up, if and only if every save that went through updated only rows its store then observed; versions then count commits and commits chain |
| ConcurrencyProofs.StepKeepsSafeIff | core/src/plugins/ConcurrencyDbPlugin.ts:75-175 | a read or save keeps that invariant if and only if, when it is a save that goes through, it had looked at what it updates |
| ConcurrencyProofs.RefusedExactlyWhenStale | core/src/plugins/EphemeralDataPlugin.ts:147-176 | a save of observed rows is refused if and only if one of its rows is stored at another version than observed, and then nothing changed |
| ConcurrencyProofs.UnobservedUpdateIsUnchecked | core/src/plugins/ConcurrencyDbPlugin.ts:117-145 | an update of a row never observed overwrites it, at version 1 |
| ConcurrencyProofs.RetryWithoutReadingOverwrites | core/src/plugins/ConcurrencyDbPlugin.ts:163-175 | a refused save, sent again without a read, goes through |
| ConcurrencyPlugin.ConcurrencyDbPlugin.Query | core/src/plugins/ConcurrencyDbPlugin.ts:75-98 | a read records each row's version and hands the row out without the column |
| ConcurrencyPlugin.ConcurrencyDbPlugin.BulkPersist | core/src/plugins/ConcurrencyDbPlugin.ts:100-178 | a save stamps, persists and then observes or forgets, on the object's map |
| OverlappingSaves.RevertAnywhere | core/src/plugins/EphemeralDataPlugin.ts:182-200 | a revert that comes late writes, whatever the memory has become, the first undo of each slot |
| OverlappingSaves.OverlapIsHarmlessIff | core/src/plugins/EphemeralDataPlugin.ts:227-256 | two saves that overlap on a record end as the successful ones left it if and only if the first succeeds, or both fail and the second hears of it first |
| OverlappingSaves.OverlapsAreHarmlessIff | core/src/plugins/EphemeralDataPlugin.ts:227-256 | any number of saves that overlap on a record, their callbacks in any order, end as the last successful one left it if and only if none fails or the failure heard last is that of the save submitted right after it |
| OverlappingSaves.LateFailureLosesACommit | core/src/plugins/EphemeralDataPlugin.ts:227-256 | the run on which a late revert overwrites another store's committed, version-checked update |
| OverlappingSaves.SavesApartLoseNothing | core/src/plugins/EphemeralDataPlugin.ts:176-256 | over every run of submissions, late callbacks of either outcome, and reads, in which no record of a save in flight is read or written, no committed update is lost and the memory at rest holds what the successful saves wrote |
| OverlappingSaves.TurnKeepsSteady | core/src/plugins/EphemeralDataPlugin.ts:176-256 | each such step keeps memory and settled records equal outside the saves in flight, and every save in flight fit to be made whole |
| Expressions.DefiniteAnswersAreSound | core/src/expressions/evaluate.ts:160-205 | a definite answer of the three-valued evaluator agrees with the two-valued meaning, however the leaves it cannot judge are decided |
| Expressions.PredicateKeepsEveryMatch | core/src/expressions/evaluate.ts:207-218 | `toPredicate` never drops a row the filter keeps |
| Expressions.StrictPredicateIsExact | core/src/expressions/evaluate.ts:220-242 | `toStrictPredicate` is exact whenever it returns |
| Expressions.NegateIsKleeneNegation | core/src/expressions/parser.ts:561-576 | negating the tree by De Morgan negates its evaluation in Kleene's logic and its two-valued meaning |
| Expressions.DoubleNegationRestoresTheTree | core/src/expressions/parser.ts:561-576 | negating twice gives the tree back |
| ParserRoundTrip.ParsePrinted | core/src/expressions/parser.ts:498-1027 | parsing the printed form of any filter gives its translation, or fails exactly when it has none |
| FilterMeaning.CompiledFilterMeansItsSource | core/src/expressions/parser.ts:509-603 | for every filter that compiles, a definite answer of the bound tree on a row is the filter's own JavaScript meaning, and it is definite wherever the meaning is decided; needs the row to be faithful (no conversion between kinds, no stacked case methods, bare conditions only on booleans) |
| FilterMeaning.TranslationKeepsMeaning | core/src/expressions/parser.ts:890-1027 | precedence, tautology removal, operand swap, boolean folding and De Morgan negation together keep the filter's answer in Kleene's logic |
| FilterMeaning.RelationMeaning | core/src/expressions/parser.ts:376-400 | each comparison operator, and its swapped form, means what JavaScript means |
| FilterMeaning.BareConditionIsTruthinessExactlyForBooleans | core/src/expressions/parser.ts:937-959 | a bare property means its truthiness on all rows if and only if it is declared boolean |
| FilterMeaning.StrictComparisonIsExactWithoutConversion | core/src/expressions/parser.ts:450-467 | a strict comparison with a literal is exact on all rows if and only if the literal needs no conversion |
| FilterMeaning.MembershipIsStrictIff | core/src/expressions/evaluate.ts:124-158 | membership of any value answers as JavaScript does if and only if the list holds the value or nothing `==` takes for it |
| FilterMeaning.MembershipOfAMissingValue | core/src/expressions/evaluate.ts:124-158 | of null or undefined, if and only if the list holds it or does not hold the other |
| FilterMeaning.StackedCaseMethodsAgreeIff | core/src/expressions/parser.ts:730-793 | a chain of case methods of any length answers as JavaScript does for every prefix if and only if its last method folds the row's text as the whole chain does |
| FilterMeaning.StackedCaseMethodsKeepOnlyTheLast | core/src/expressions/parser.ts:730-793 | what the parsed filter and its source answer, side by side |
| FilterMeaning.NegatedTautologyIsRefused | core/src/expressions/parser.ts:549-576 | of the filters that compile, those whose negation does not are exactly those that reduce to the tautology |
| FilterParser.ExpressionParser.Parse | core/src/expressions/parser.ts:498-507 | the cursor and its loops compute what the grammar says of the tokens |
| FilterParser.ExpressionParser.ParseOr | core/src/expressions/parser.ts:509-525 | the disjunction loop, with its dropped tautologies, computes the grammar |
| FilterParser.ExpressionParser.ParseChain | core/src/expressions/parser.ts:730-793 | the loop over path segments, transforms and method calls computes the grammar |
| TemplateCache.CachingIsTransparentIff | core/src/expressions/parser.ts:1203-1353 | for every source, after any run of calls with and without params and of clearings: a call answers as a fresh parse when no call has stored the source since the cache was last emptied, and else if and only if the storing call failed and this one fails by itself, or it stored a tree and it carried no params, or this one does, or the source parses without them, or the tree reads one |
| TemplateCache.EntriesAreFilled | core/src/expressions/parser.ts:1291-1353 | after every run a source has an entry if and only if some call of the run stored one and nothing emptied the cache since, and the entry is what that call stored |
| TemplateCache.CachingIsTransparent | core/src/expressions/parser.ts:1203-1353 | after any run of calls and clearings, a cached answer is the tree parsed and bound afresh for a source used always with or always without params that holds no `entity[params.x]` or was never refused for naming an unknown property |
| TemplateCache.ComputedKeyIsTransparentIff | core/src/expressions/parser.ts:795-864 | for a source with an `entity[params.x]` segment: after any run a call answers as a fresh parse if and only if no call of it since the cache was last emptied failed for a reason other than its params, or this call's own parse or binding fails |
| TemplateCache.ShapedIffComputedKey | core/src/expressions/parser.ts:795-864 | a parse that succeeds is marked as shaped by the params if and only if its tokens hold such a segment |
| TemplateCache.UnshapedParseIsTheParse | core/src/expressions/parser.ts:1063-1106 | a parse that succeeds without being marked is the parse under any params, and under a params name it did not know |
| TemplateCache.ParseIgnoresParamValues | core/src/expressions/parser.ts:1063-1106 | without such a segment the parse does not depend on any param's value |
| TemplateCache.ParamPresenceIsNotInTheKey | core/src/expressions/parser.ts:1291-1353 | the input on which a call without params spoils later calls with them |
| TemplateCache.AbsorbedParamAnswersWithoutParams | core/src/expressions/parser.ts:1291-1353 | the input on which a call with params makes a later call without them answer where it should refuse |
| TemplateCache.UnknownNameThroughParamPoisonsTheCache | core/src/expressions/parser.ts:795-864 | the input on which one param value spoils the template for another |
| TemplateCache.Cache.ToExpression | core/src/expressions/parser.ts:1291-1353 | a call answers from or fills the object's map as specified |
| FullTextProofs.IndexEqualsRebuild | datastore/src/collection-builder/fullTextSearch.ts:202-448 | after every run of saves, deferred rows included, the index is the one rebuilt from the stored documents in any order, no code of a term and field beginning another |
| FullTextProofs.RunKeepsTheMirror | datastore/src/collection-builder/fullTextSearch.ts:330-448 | after every run of saves the index holds exactly the rows the documents produce |
| FullTextProofs.UpdatingKeepsTheMirror | datastore/src/collection-builder/fullTextSearch.ts:227-269 | looking only at the fields a right `previous` names moves the index from the old document to the new |
| FullTextProofs.UpdateWithoutPreviousIsRightIff | datastore/src/collection-builder/fullTextSearch.ts:366-375 | an update without `previous` leaves the index true if and only if both versions produce the same rows |
| FullTextProofs.KeysCollideIff | datastore/src/collection-builder/fullTextSearch.ts:202-220 | some ids give two terms and fields one row key if and only if they differ and the code of one, what stands before the id, begins the code of the other |
| FullTextProofs.CleanIsProper | core/src/schema/SchemaDefinition.ts:703-713 | terms and field names without the separator never collide, so an ordinary declaration meets what the index needs |
| FullTextProofs.CollidingCodesHaveNoIndex | datastore/src/collection-builder/fullTextSearch.ts:202-220 | where one field's code for a term properly begins another's, two documents already have rows that no index can hold together |
| FullTextProofs.BarredTermsCollide | datastore/src/collection-builder/fullTextSearch.ts:202-220 | with the separator in a term two documents share a key |
| FullTextProofs.BuildRowsAre | datastore/src/collection-builder/fullTextSearch.ts:202-220 | a document's rows are one for each term of each field, and no two share a key |
| FullTextProofs.RepairRestoresIff | datastore/src/search/FullTextSearchIndexer.ts:154-200 | writing the difference between any index and the expected rows makes it mirror the documents, if and only if every stored row with an expected key and frequency is the expected row |
| FullTextProofs.RepairRestores | datastore/src/search/FullTextSearchIndexer.ts:154-200 | so it does whenever the stored rows' fields agree with their keys, as all rows the index writes do |
| FullTextPlugin.DetachUndoesApplyIff | datastore/src/collection-builder/fullTextSearch.ts:457-478 | taking the counted rows out gives back what the save held for an index before they were appended, if and only if at most one declaration put rows under it |
| FullTextRuns.DeferredRowsComplete | datastore/src/collection-builder/fullTextSearch.ts:418-448 | the follow-up write holds, for each of several declarations, the rows of exactly the added documents its save left out |
| FullTextRuns.EveryIndexEqualsItsRebuild | datastore/src/collection-builder/fullTextSearch.ts:299-448 | over every run of saves of many collections, each declared once with an index of its own, every index is the one rebuilt from its collection's documents |
| FullTextRuns.WideSaveIsEachSave | datastore/src/collection-builder/fullTextSearch.ts:330-448 | a save over all collections does to each collection and its index what its own part would do alone |
| FullTextPlugin.SharedIndexIsMiscounted | datastore/src/collection-builder/fullTextSearch.ts:398-406 | with two declarations on one index the first one's rows stay behind |
| FullTextPlugin.FullTextSearchRegistry.Apply | datastore/src/collection-builder/fullTextSearch.ts:330-407 | the loop over declarations appends, counts and remembers as specified |
| FullTextPlugin.FullTextSearchRegistry.DeferredAdds | datastore/src/collection-builder/fullTextSearch.ts:418-448 | the follow-up rows are those of echoed adds not indexed in the save, or none |
| FullTextPlugin.FullTextSearchRegistry.Detach | datastore/src/collection-builder/fullTextSearch.ts:457-478 | both the save and its result lose exactly the counted rows |
| FullTextPlugin.FullTextSearchRegistry.Register | datastore/src/collection-builder/fullTextSearch.ts:299-310 | a collection is declared once |
| Patch.DiffRebuildsIff | datastore/src/change-tracking/ImmutableUpdates.ts:177-210 | patching the base with its difference to a value gives the value, if and only if the value keeps every key of the base at every shared depth and adds no undefined one |
| Patch.DiffIsEmptyIff | datastore/src/change-tracking/ImmutableUpdates.ts:177-210 | with the shape kept, an empty difference means no change and nothing else does |
| Patch.DiffOfItselfIsEmpty | datastore/src/change-tracking/ImmutableUpdates.ts:177-210 | a value does not differ from a copy of itself |
| Patch.PatchIsIdempotent | datastore/src/change-tracking/ImmutableUpdates.ts:41-54 | applying a patch twice is applying it once |
| Patch.PatchesComposeIff | datastore/src/change-tracking/ImmutableUpdates.ts:56-58 | the accumulated patch acts as the patches in turn, if and only if no property goes from an object through a plain value to an object that forgets some of its keys |
| Patch.ObjectThroughNullComesBack | datastore/src/change-tracking/ImmutableUpdates.ts:56-58 | the input on which an accumulated patch brings dropped keys back |
| Patch.PatchReplacesIff | datastore/src/change-tracking/ImmutableUpdates.ts:41-54 | a patch replaces an object whole if and only if it names every key at every shared depth |
| Patch.PendingRootsSuffice | datastore/src/change-tracking/ImmutableUpdates.ts:125-168 | over every run of updates to any rows, writing the patched roots of a pending row over its original gives its current value |
| Patch.PatchRebuildsIff | datastore/src/change-tracking/ImmutableUpdates.ts:155-168 | the accumulated patch alone keeps rebuilding the row exactly while each step composes |
| ImmutableUpdates.Patched | datastore/src/change-tracking/ImmutableUpdates.ts:41-54 | the recursive loop over a patch's keys computes the patch |
| ImmutableUpdates.Compare | datastore/src/change-tracking/ImmutableUpdates.ts:177-210 | the recursive loop over the new keys computes the difference |
| ImmutableUpdates.ImmutableUpdates.Update | datastore/src/change-tracking/ImmutableUpdates.ts:125-168 | an update reads the pending or attached value and records original, current and patch |
| ProxyTracking.TrackingIsExact | core/src/schema/SchemaDefinition.ts:46-138 | over every run of root writes that never changes a key last changed to null, `changes` and `original` name exactly the properties that differ from the last save, `isDirty` holds exactly when there are some, and undoing them rebuilds it |
| ProxyTracking.WriteKeepsExactIff | core/src/schema/SchemaDefinition.ts:46-138 | a write keeps the record exact if and only if it does not really change a key last changed to null |
| ProxyTracking.NonNullRunsNeverOverNull | core/src/schema/SchemaDefinition.ts:99-133 | a run that writes neither null nor undefined never meets the exception |
| ProxyTracking.UndoRebuilds | datastore/src/change-tracking/ChangeTracker.ts:515-549 | restoring the recorded originals gives the last-saved entity, and nothing is restored exactly when nothing differs |
| ProxyTracking.NullForgetsTheOriginal | core/src/schema/SchemaDefinition.ts:99-133 | the input on which the undo stops at the null |
| ProxyTracking.WriteKeepsRecordedIff | core/src/schema/SchemaDefinition.ts:46-138 | a write keeps every difference from the last save named in the record, nulls and all, if and only if it does not give a recorded property its recorded original where that is not what was saved |
| ProxyTracking.RunRecordsIff | core/src/schema/SchemaDefinition.ts:46-138 | over every run of root writes whatever differs from the last save is recorded if and only if no property's last real write was such a one |
| ProxyTracking.WriteKeepsTruthfulIff | core/src/schema/SchemaDefinition.ts:46-138 | a write keeps the recorded originals what was saved if and only if it does not record a fresh one, over a null or nothing, while the property is not as saved |
| ProxyTracking.Proxy.Set | core/src/schema/SchemaDefinition.ts:46-138 | the trap's branches on the mutable record compute the specified write |
| ProxyTracking.Proxy.RestoreOriginals | datastore/src/change-tracking/ChangeTracker.ts:515-549 | the loop over recorded paths computes the restored entity |
| SaveLifecycle.LifecycleConverges | datastore/src/change-tracking/ChangeTracker.ts:278-487 | along every run of edits in any modes, nulls and dropped keys included, a save stores a row as its caller saw it if and only if nothing of it goes unsaved: a mutation the hash missed, a property the proxy's record or the pending patch does not name; the caller then sees the stored row if and only if that is so, or the row was pending, or the echo overwrites what went unsaved; nothing is left to send and `hasChanges` is false |
| SaveLifecycle.ProxySchemasConvergeIff | datastore/src/change-tracking/ChangeTracker.ts:278-487 | where no hash is taken every row is stored as its caller saw it if and only if records and patches name all that differs |
| SaveLifecycle.WrittenRowIsStoredIff | core/src/schema/SchemaDefinition.ts:99-133 | over every run of proxy writes to a row, a save stores it as its caller sees it if and only if no property's last real write took the change out of the record |
| SaveLifecycle.NullThereAndBackLosesTheEdit | core/src/schema/SchemaDefinition.ts:99-133 | the run of null, a value and null that the caller sees, `hasChanges` denies and no save sends |
| SaveLifecycle.NullThenValueMisreportsThePast | core/src/schema/SchemaDefinition.ts:99-133 | the run of null and a value after which the update reports null as the row's past |
| SaveLifecycle.SaveConvergesIff | datastore/src/change-tracking/ChangeTracker.ts:388-487 | applying the emitted updates, an empty delta meaning the whole entity, makes every row read as its attached or pending value, if and only if nothing of any row goes unsaved |
| SaveLifecycle.LeftOutRootsAreUnnoticed | core/src/codegen/handlers/HashHandlerBuilder.ts:12-34 | a mutation of a root left out of the hash, such as a key, goes unnoticed |
| SaveLifecycle.JoinedTextsLoseTheEdit | core/src/codegen/handlers/hash/HashValueHandler.ts:7-21 | the edit of two names that the hash, joining texts without a separator, does not notice, and a save loses |
| SaveLifecycle.EditKeepsInSync | datastore/src/change-tracking/ChangeTracker.ts:388-487 | each write, mutation, mark, update, attach, discard and save, whatever its values, keeps snapshots and untracked entities reading as the stored rows and records well kept |
| SaveLifecycle.NothingLeftIff | datastore/src/change-tracking/ChangeTracker.ts:278-322 | after an echo and a clearing there is nothing to send if and only if every dirty attachment was echoed |
| SaveLifecycle.HasChangesAgreesIff | datastore/src/change-tracking/ChangeTracker.ts:902-904 | when `hasChanges` and the emission agree |
| SaveLifecycle.AttachmentPreviousIsTrueIff | datastore/src/change-tracking/ChangeTracker.ts:434-458 | the reported previous values are what was stored, for every changed root, if and only if the row was found by its hash, or each recorded original is what was stored and nothing else differs, or a row marked by hand with nothing recorded is as stored |
| SaveLifecycle.PendingPreviousIsTrue | datastore/src/change-tracking/ChangeTracker.ts:474-484 | an immutable update's previous values are what was stored |
| SaveLifecycle.RunsReportTruePreviousIff | datastore/src/change-tracking/ChangeTracker.ts:388-487 | so it is for each update emitted along every run, a pending one going by its patch and its original |
| SaveLifecycle.WrittenRowTellsThePastIff | core/src/schema/SchemaDefinition.ts:99-133 | over every run of proxy writes to a row, the update it emits reports what was stored if and only if each property's last real write left its true past in the record |
| SaveLifecycle.EditInFlightSurvivesIff | datastore/src/change-tracking/ChangeTracker.ts:278-328 | a proxy edit made while a save is out stays to be sent if and only if the save did not carry its row, and is else overwritten by the echo wherever that is not null; an immutable update never stays |
| SaveLifecycle.PendingRowConvergesIff | datastore/src/change-tracking/ChangeTracker.ts:580-600 | a pending row's stored value is its current one if and only if the stored row agrees with it outside the patch |
| SaveLifecycle.MixedModesLoseTheProxyEdit | datastore/src/change-tracking/ChangeTracker.ts:461-484 | the input on which two modes in one save lose an edit |
| ChangeTracker.ChangeTracker.GetAttachmentsChanges | datastore/src/change-tracking/ChangeTracker.ts:388-487 | the scan, the backwards removal of pending rows and the appending list every emitted update once |
| ChangeTracker.ChangeTracker.MergeChanges | datastore/src/change-tracking/ChangeTracker.ts:278-328 | the loop over echoed updates adopts or merges each row and marks it persisted |
| ChangeTracker.ChangeTracker.ClearChanges | datastore/src/change-tracking/ChangeTracker.ts:1017-1035 | pending patches, additions and removals go and nothing else |
| ChangeTracker.ChangeTracker.HasAttachmentsChanges | datastore/src/change-tracking/ChangeTracker.ts:248-268 | the early-leaving scan decides whether any attachment counts as changed |
| ChangeTracker.ChangeTracker.UpdateImmutable | datastore/src/change-tracking/ChangeTracker.ts:606-625 | an update is based on the pending value, else the attached one, else refused |
| Pipeline.CompletesIff | core/src/pipeline/TrampolinePipeline.ts:19-155 | a run completes if and only if every processor succeeds on what the ones before made, now or later, and then with their composition |
| Pipeline.EachRunsOnceInOrder | core/src/pipeline/TrampolinePipeline.ts:42-98 | the processors up to the first that does not succeed run once, in order, and none after it |
| Pipeline.DoneOnceIff | core/src/pipeline/TrampolinePipeline.ts:34-155 | from the processors alone, with what `done` is first called, when it is not called at all, and when it is called exactly once |
| Pipeline.Run.RunToEnd | core/src/pipeline/TrampolinePipeline.ts:19-155 | over every mix of reports now and later, the calls of `done`, the processors run and the number of trampoline starts (one, and one for each late report) are as specified |
| Pipeline.Run.Trampoline | core/src/pipeline/TrampolinePipeline.ts:100-147 | synchronous steps run in the one loop, and an error thrown in it reaches `done` once |
| Pipeline.Run.Arrive | core/src/pipeline/TrampolinePipeline.ts:56-80 | a late success resumes after its processor; a late error is thrown to the reporter and `done` is not called |
| CacheProofs.CacheIsInvisible | core/src/plugins/CacheDbPlugin.ts:124-217 | over every interleaving in which no answer is kept that a commit overtook or that came between a write's begin and its commit, each hit is told what the inner plugin would answer at that moment, and each miss that or what it was answered, queries of one description having one answer |
| CacheProofs.StepKeepsTruthfulIff | core/src/plugins/CacheDbPlugin.ts:124-217 | of all steps only two can make the next hit untrue, and exactly when: a delivery kept although some query of its description would now be told otherwise, and a commit that changes a cached answer |
| CacheProofs.OverlapServesStale | core/src/plugins/CacheDbPlugin.ts:143-163 | the run on which an overlapping read serves a stale row |
| CacheProofs.ReadBeforeTheCommitServesStale | core/src/plugins/CacheDbPlugin.ts:206-217 | the run on which a read between a write's begin and its commit is served stale until the write ends |
| CacheProofs.SharedDescriptionServesAnother | core/src/plugins/CacheDbPlugin.ts:54-101 | the run on which a query is served another query's answer, of the same description |
| CacheProofs.InvalidationIsExact | core/src/plugins/CacheDbPlugin.ts:190-201 | invalidation removes exactly the entries under the touched prefixes and keeps the order of the rest |
| CacheProofs.PrefixNamesTheSchema | core/src/plugins/CacheDbPlugin.ts:93-101 | a key starts with a schema's prefix if and only if it is that schema's, ids holding no NUL |
| CacheProofs.EntriesStandInOrderOfUse | core/src/plugins/CacheDbPlugin.ts:124-187 | over every run without late twins the entries are distinct, at most `max`, and in the order of their last use |
| CacheProofs.StepKeepsTidyIff | core/src/plugins/CacheDbPlugin.ts:124-187 | a step keeps that order if and only if it does not deliver a second miss of one query after something else was used |
| CacheProofs.StoreIsTidy | core/src/plugins/CacheDbPlugin.ts:165-187 | a store into a full cache evicts the entry used longest ago |
| CacheProofs.NeverTooMany | core/src/plugins/CacheDbPlugin.ts:165-187 | over every run at most `max` results are kept |
| CacheProofs.TwinKeepsOrderIff | core/src/plugins/CacheDbPlugin.ts:165-187 | a second result stored under a key keeps the order of use if and only if the key's entry was already last |
| CachePlugin.CacheDbPlugin.Query | core/src/plugins/CacheDbPlugin.ts:124-163 | a hit moves its entry last and asks nobody; a miss asks, stores and answers; an error is not stored |
| CachePlugin.CacheDbPlugin.Invalidate | core/src/plugins/CacheDbPlugin.ts:190-201 | the nested loop over schemas and a copy of the keys computes the invalidation |
| KeyLookup.ShortCutIsExactIff | core/src/plugins/EphemeralDataPlugin.ts:386-456 | for every list of leading filters and any predicates, fetching the one record by the pinned key answers as filtering all records does, if and only if every record all filters keep is filed under the pinned value's string form |
| KeyLookup.ShortCutIsExact | core/src/plugins/EphemeralDataPlugin.ts:386-456 | so it does when predicates agree with their expressions and the pinning comparison is strict or within the key's kind, its literal untransformed |
| KeyLookup.QueriesAfterAnyRunAreExactIff | core/src/collections/MemoryDataCollection.ts:131-167 | and if and only if that, after every run of adds, updates and removes |
| KeyLookup.QueriesAfterAnyRunAreExact | core/src/collections/MemoryDataCollection.ts:131-167 | so it is after every run of adds, updates and removes |
| KeyLookup.ChangesKeepRecordsFiled | core/src/collections/MemoryDataCollection.ts:87-167 | every run leaves each record filed once, under its own stringified key |
| KeyLookup.TransformedLiteralIsMissed | core/src/plugins/EphemeralDataPlugin.ts:19-42 | the query with a case method on its literal that misses its record |
| KeyLookup.Query | core/src/plugins/EphemeralDataPlugin.ts:386-456 | the loops over filters and records compute the answer |
| Strings.CountWordOccurrence | core/src/codegen/utils.ts:24-74 | a term of word characters is counted at every whole-word position, any other as often as it fits without overlap, a single character wherever it stands |
| Strings.CountTerm | core/src/codegen/utils.ts:56-73 | skipping a whole match loses no whole word, and taking each next match is best possible |
| Strings.SkipMatched | core/src/codegen/utils.ts:56-73 | no whole word starts inside a match of word characters |
| Strings.OneLetterIsWholeWordIff | core/src/codegen/utils.ts:30-36 | the one-character count is the whole-word count if and only if every match stands alone |
| Strings.FastHash | core/src/utilities/strings.ts:35-41 | the loop, whose sums round beyond 2^53, gives djb2 modulo 2^32 for every text short enough |
| Strings.OneCharacter | core/src/utilities/strings.ts:37-39 | one unreduced step is congruent to one step of the recurrence |

## Left out

- Tokenizing a function's source, escapes, number forms, regular expressions and `fn.toString()`: the parser starts at tokens.
- JavaScript's own conversions, Unicode case mapping, locales and NaN: `Expressions.Js` keeps them abstract, with the laws a lemma needs stated as its requirement.
- FilterMeaning.StrictComparisonIsExactWithoutConversion: numbers are reals, so a literal that converts to NaN, on which the code is exact because NaN equals nothing, is counted with those that convert.
- TemplateCache.ComputedKeyIsTransparentIff: a params name that the parser takes for a constant, which only `undefined` can be, falls under `CachingIsTransparentIff` alone.
- FilterMeaning.CompiledFilterMeansItsSource: the requirement `Faithful` leaves out what the code does not keep (stacked case methods, conversion of a compared value, bare conditions on other kinds, membership through conversions), each asked of the row at hand; exact conditions for these are lemmas of their own.
- Renamed properties, serializers, transforms, generated functions and schema compilation: rows carry properties under their own names, and cloning and preprocessing do nothing.
- Composite keys, in the concurrency, index and key-lookup models.
- ConcurrencyProofs.NoUpdateIsLostIff: removes are excluded and each row is changed once per save; a save is one step, overlapping ones are `OverlappingSaves`' matter.
- ConcurrencyPlugin.ConcurrencyDbPlugin.BulkPersist: the version is stamped into the whole entity; stamping it into a partial delta as well is not modelled.
- OverlappingSaves.SavesApartLoseNothing: keeping apart is sufficient, and exact only record by record (`OverlapsAreHarmlessIff`); it speaks of the shared memory; the order in which files are written and re-written is `FailedSaveOnDisk`'s matter, for one save.
- PersistPlugin.BulkPersistAll: the load and save callbacks answer within the call; what may come between is `OverlappingSaves`' matter.
- PersistProofs.FailedSaveLeavesNothing: speaks of the records; the number counter is not restored by the source and is not claimed.
- ProxyTracking.TrackingIsExact: root properties only; paths into nested objects, array proxies and paused tracking are not part of the claim (a paused write is modelled in `Written`).
- Patch.DiffRebuildsIff: arrays are opaque references and dates are instants; two references to one array are one, and prototype keys do not exist.
- SaveLifecycle.LifecycleConverges: a row is attached once, so a read that merges into an attached row is not modelled, and an echo carries no defaults or computed values of its own; additions and removals are carried but not sent; matching an added row to its echo, soft deletion, tags and the slots of unsaved rows are not modelled.
- ChangeTracker.ChangeTracker.MergeChanges: each echoed row is attached and echoed once; an echo of an unattached row raises an error in the source.
- ChangeTracker.ChangeTracker.ClearChanges: the slots of unsaved rows, which the source marks as discarded, are not modelled.
- ChangeTracker.ChangeTracker.UpdateImmutable: an update of a row that was added and not yet saved goes through its slot in the source, and is not modelled.
- ImmutableUpdates.ImmutableUpdates.Update: an updater is a function to a new value; one that mutates its argument and returns it cannot be written here.
- FullTextRuns.EveryIndexEqualsItsRebuild: each collection has an index of its own; what sharing one does to a save is `DetachUndoesApplyIff`.
- FullTextProofs.IndexEqualsRebuild: index rows and documents are kept in separate maps, ids appear by their string form, and each document has one kind of change per save.
- BatchingSafety.BatchingIsInvisible: the inner plugin calls back once, destroy is called once, and a merged write may fail although its items would not.
- CacheProofs.CacheIsInvisible: copies of results are equal values, and the plugin behind answers from one table per schema.
- Pipeline.DoneOnceIff: one run per pipeline at a time, since a second run resets the shared error flag; errors are truthy.
- Joins, sorting, paging, aggregates, vector search and the translators: queries are leading filters.
- `hash` (the 53-bit hash), the `stringify` helpers, `combineExpressions` and `parseFragment`: they would add only easy members.
- Stores, subscriptions, queryables, React, the retry, telemetry and HTTP plugins, timers and uuids.
