# Verification of the semantic layer

A Dafny model of the parts of this repository that promise exactness, with proofs that hold for all
inputs, all histories and all interleavings. `dafny verify dfyconfig.toml` checks everything.

- **Catalog publication.** A persistent treap with key-derived priorities and Merkle digests; a
  reverse-dependency index kept on it; incremental revalidation and cycle search against validation from
  scratch; a store that publishes under an optimistic digest check; and a search index that is patched
  instead of rebuilt. Modules `Treap`, `Relations`, `ReverseIndex`, `Validation`, `CycleSearch`,
  `Incremental`, `Publication`, `CatalogStore`, `SearchTerms`, `Postings`, `PostingRanges`, `SearchIndex`,
  `SearchBuild`, `SearchUpdate`, `Snapshots`, `Generations`. What these promise is read off the inputs alone
  in `TreapShape`, `Declarations`, `BatchMeaning` and `SearchScores`.
- **Exact arithmetic.** Largest-remainder allocation in the catalog and as row-wise kernels in the engine,
  the PostgreSQL NUMERIC format, and mergeable aggregate states. Modules `Allocation`,
  `VerifyAllocation`, `AllocationKernels`, `NumericCodec`, `AggregateRuns` and `Checked*`; read off the rows and
  bytes alone in `EligibleRows`, `LargestRemainder`, `NumericBytes` and `AggregateMeaning`.
- **The materialization cache** as a step system over fills, readers, invalidations, evictions and
  crashes. Modules `CacheDisk`, `CacheProtocol`, `CacheGuarantees`, `CacheExamples`, `CacheEviction`,
  `CacheEffects`, `EvictionMeaning`.
- **The engine's graphs.** Registration order, base dependencies, cache exclusion and freshness. Modules
  `RegistrationOrder`, `EngineLineage`, `QueryEngine`, `Freshness`.
- **Translations.** Rendering logical plans to ClickHouse (`RowBags`, `RelationalPlans`, `RemoteQueries`,
  `OperatorBags`, `PlanRenderer`, `Renderer*`, `RenderPreserves`; what a plan means locally is spelled out in
  `ExpressionMeaning`, `OperatorMeaning` and `GroupMeaning`), and normalising YAML event streams (`Source*`,
  `MergePrecedence`, `DocumentReader`, `ReadingRoundTrip`).

Hashes and priorities are functions supplied from outside; collision-freedom is a premise only where a
digest has to identify something. Results of the publication stack are stated for runs in which no work
limit is reached. Strings are ordered by their characters, which for valid text is the order of their
UTF-8 bytes.

Six places where the code does less than its documentation or its neighbours suggest are part of the
results, each with an input and with the condition under which the code does what is expected:

- When the directory sync after the pointer rename fails, the catalog lock is released before the published
  directory is removed, and the removal asks for no lease. So a leased generation can be deleted, CURRENT is
  left dangling, and the key answers with an error until it is invalidated. A generation loses its guarantees
  exactly by its own failed sync (`CacheGuarantees.StepKeepsIntact`, `CacheExamples.LostLeaseExample`,
  `CacheExamples.FailedSyncExample`, `CacheGuarantees.StuckUntilInvalidated`).
- The disk budget is enforced exactly when it is not the largest 64-bit number; locks, leases and pointers do
  not depend on it (`CacheDisk.AdmissionIsExact`, `CacheExamples.LargestBudgetExample`,
  `CacheGuarantees.AllRuns`).
- A join key of the right side whose column also resolves on the left is rendered against the left side: a
  join on a pair of columns is faithful exactly when that is not so (`RendererExactness.ColumnJoinExact`,
  `RendererExactness.ShadowedSemiJoinExample`). An empty relation with columns is rendered without them
  (`RendererExactness.EmptyRelationExact`).
- The catalog finalises a mean in 128 bits and refuses some that the engine returns
  (`CheckedMean.CatalogAgrees`, `CheckedMean.CatalogRefusesMean`).
- The depth limit of normalisation counts written nesting only: through aliases an accepted tree can be more than twice as
  deep, and it is bounded by the budget on nodes (`SourceDepth.DeeperThanWritten`, `SourceDepth.DepthWithinBudget`).
- Whether a weighted mean overflows can depend on the order of its rows (`CheckedWeighted.OrderCanOverflow`,
  `CheckedWeighted.EveryOrderSucceeds`).

## Model

| member | source | states |
|---|---|---|
| Treap.Get | crates/semantic-catalog/src/tree.rs:45-55 | The cursor loop finds exactly what the binary search of the tree finds. |
| Treap.InsertShape | crates/semantic-catalog/src/tree.rs:76-135 | Insertion with its rotation keeps the search order, the heap order on (priority, key), and every cached size and digest, and adds exactly one key. |
| Treap.InsertContents | crates/semantic-catalog/src/tree.rs:76-135 | On a canonical tree, insertion is the update of an ordinary map: the new key maps to the new value, all others are as before. |
| Treap.RemoveShape | crates/semantic-catalog/src/tree.rs:136-173 | Removal by merging the two sides keeps the tree canonical and takes away exactly the removed key, or nothing. |
| Treap.RemoveContents | crates/semantic-catalog/src/tree.rs:136-173 | On a canonical tree, removal is the removal from an ordinary map. |
| Treap.SameContents | crates/semantic-catalog/src/tree.rs:56-173 | Two canonical trees that find the same entries are the same tree, cached priorities, sizes and digests included. |
| Treap.HistoryIndependent | crates/semantic-catalog/src/tree.rs:76-173 | Any two sequences of inserts and removes build the same tree exactly when they leave the same map. |
| Treap.DigestIdentifies | crates/semantic-catalog/src/tree.rs:56-75 | With a collision-free hash, root digests are equal exactly when the key-to-revision maps are. |
| Treap.DigestIdentifiesTree | crates/semantic-catalog/src/tree.rs:40-75 | If revisions identify values as well, equal digests mean equal trees. |
| TreapShape.RootLeads | crates/semantic-catalog/src/tree.rs:76-135 | The root of the one tree of some contents has the least priority of all keys, the smaller key among equals. |
| TreapShape.SidesExactly | crates/semantic-catalog/src/tree.rs:45-55 | Lexicographically smaller keys are on the left of a node and larger ones on its right. |
| TreapShape.FieldsExactly | crates/semantic-catalog/src/tree.rs:56-75 | Size, priority and digest of a node are the number of its entries, the priority of its key and the hash of digests, key and revision. |
| Treap.Iter.Next | crates/semantic-catalog/src/tree.rs:183-198 | Each call yields the first of the remaining entries and leaves the rest; it ends only when none remain. |
| Treap.EntriesAscending | crates/semantic-catalog/src/tree.rs:174-198 | The iteration visits keys in strictly ascending order. |
| Treap.EntriesGive | crates/semantic-catalog/src/tree.rs:174-198 | Reading back everything the iteration presents gives the contents of the tree. |
| Graphs.CycleAvoidsRanked | crates/semantic-catalog/src/publication.rs:268-286 | A dependency-first order certifies that no cycle passes through what it has placed. |
| Graphs.WaitingHasCycle | crates/semantic-catalog/src/publication.rs:284-286 | A nonempty set in which everyone still waits for a member contains a cycle. |
| Validation.CheckRelationships | crates/semantic-catalog/src/publication.rs:949-1000 | The relationship checks pass exactly when every target exists and every key pair joins fields of one type and one reference system. |
| Validation.CheckMetrics | crates/semantic-catalog/src/publication.rs:741-935 | The metric checks pass exactly when every field a metric names exists, its own or through one of the relation's relationships. |
| Validation.ValidateDefinition | crates/semantic-catalog/src/publication.rs:297-310 | One relation's definition check decides the stated predicate and adds exactly its declared edges to the reverse index. |
| Validation.Release | crates/semantic-catalog/src/publication.rs:272-283 | Releasing a relation's dependents finds every counter and never drives one below zero. |
| Validation.Emit | crates/semantic-catalog/src/publication.rs:272-283 | Each round keeps every counter equal to the dependencies not yet emitted, in an order that puts dependencies first. |
| Validation.Kahn | crates/semantic-catalog/src/publication.rs:260-286 | What the loop leaves blocked is exactly the relations from which one gets into a cycle, so nothing exactly when there is none. |
| Validation.Validate | crates/semantic-catalog/src/publication.rs:235-295 | A from-scratch validation accepts exactly the valid catalogs and returns all their reverse edges; an error names a relation that is invalid, a dependency that is missing, or all relations from which one gets into a cycle. |
| ReverseIndex.DependencyAnalysis.Edit | crates/semantic-catalog/src/publication.rs:1187-1213 | One edit adds or removes one reverse edge; an emptied entry disappears from the tree. |
| ReverseIndex.ExactUnique | crates/semantic-catalog/src/publication.rs:1171-1180 | There is only one tree that holds exactly the reverse edges of a catalog. |
| ReverseIndex.MoveEdges | crates/semantic-catalog/src/publication.rs:1276-1285 | Editing by the two set differences replaces one relation's edges by its new ones and touches no other edge. |
| ReverseIndex.EditChanged | crates/semantic-catalog/src/publication.rs:1274-1285 | Editing only the changed relations turns the exact index of the old catalog into the exact index of the draft. |
| CycleSearch.ActiveReachesOwner | crates/semantic-catalog/src/publication.rs:1345-1350 | Whatever is active on the explicit stack reaches the relation being explored, so meeting it again closes a cycle. |
| CycleSearch.Explore | crates/semantic-catalog/src/publication.rs:1333-1364 | The search below one relation ends, and either certifies everything below it or blames relations from each of which one gets into a cycle. |
| CycleSearch.NoNewCycle | crates/semantic-catalog/src/publication.rs:1323-1332 | A cycle that avoids every relation whose view dependencies changed existed before. |
| CycleSearch.FindCycle | crates/semantic-catalog/src/publication.rs:1323-1366 | Given an acyclic past, the search started only from changed relations blames some exactly when the draft has a cycle anywhere, and each of those leads into one. |
| Incremental.CloseOver | crates/semantic-catalog/src/publication.rs:1286-1300 | The queue loop returns exactly the relations that a change can reach over old and new edges. |
| Incremental.SameVerdict | crates/semantic-catalog/src/publication.rs:1301-1322 | A definition's verdict depends only on the relation and on what it depends on. |
| Incremental.UnreachedIsUntouched | crates/semantic-catalog/src/publication.rs:1286-1300 | Outside the affected set neither a relation nor anything it depends on has changed. |
| Incremental.Revalidate | crates/semantic-catalog/src/publication.rs:1301-1322 | Revalidation passes exactly when every affected relation of the draft is valid. |
| Incremental.AffectedDecide | crates/semantic-catalog/src/publication.rs:1301-1322 | If the old catalog was valid and the affected relations are, the whole draft is. |
| Incremental.Incrementally | crates/semantic-catalog/src/publication.rs:1267-1367 | From a valid catalog with an exact index, the warm path accepts exactly the valid drafts, and returns the exact index and the affected set. |
| Incremental.FromScratch | crates/semantic-catalog/src/publication.rs:138-215 | The cold path has the same acceptance, index and affected set. |
| Incremental.AnalysisUnique | crates/semantic-catalog/src/publication.rs:134-216 | The two paths cannot differ: their results are determined by the catalogs and the changed names. |
| Declarations.ValidExactly | crates/semantic-catalog/src/publication.rs:235-310 | A catalog is accepted exactly when every view, relationship, allocation, currency rate, calendar and metric leads to something that exists and fits, and no views read each other in a circle. |
| Declarations.IndexedExactly | crates/semantic-catalog/src/publication.rs:1215-1266 | In the index of an accepted catalog `d` has the dependent `n` exactly when the view of `n` lists `d`, or one of its relationships, allocations, currency rates or calendars points to it. |
| Declarations.FieldFound | crates/semantic-catalog/src/snapshot.rs:270-276 | A name finds a field exactly when it is the exact name of one field only. |
| Declarations.AffectedExactly | crates/semantic-catalog/src/publication.rs:1286-1300 | A relation is affected exactly when a chain of declarations, old or new, leads from it to a changed one. |
| Publication.DraftedKeeps | crates/semantic-catalog/src/publication.rs:93-120 | After a batch, every relation not named as changed is as before, and each relation stands under its own name. |
| BatchMeaning.UnnamedStays | crates/semantic-catalog/src/publication.rs:93-120 | A name that no change of the batch names is as it was. |
| BatchMeaning.LastDecides | crates/semantic-catalog/src/publication.rs:93-120 | Otherwise the last change that names it decides: a put leaves exactly that relation, a remove leaves none. |
| BatchMeaning.FailsExactly | crates/semantic-catalog/src/publication.rs:112-118 | A batch fails exactly when it removes a name that the changes before it leave absent. |
| BatchMeaning.ChangedExactly | crates/semantic-catalog/src/publication.rs:97-119 | The changed names are those of changes that had an effect when they came: removals, and puts of something else than what stood there. |
| BatchMeaning.AcceptedExactly | crates/semantic-catalog/src/publication.rs:93-137 | A batch is accepted exactly when no removal misses and, if any change has an effect, the outcome is valid. |
| Publication.Catalog.Snapshot | crates/semantic-catalog/src/lib.rs:237-241 | The snapshot is made once and always belongs to the current root. |
| Publication.Catalog.Register | crates/semantic-catalog/src/lib.rs:244-255 | Registration adds a new name or fails without a change, and drops both caches. |
| Publication.Catalog.ValidateAll | crates/semantic-catalog/src/publication.rs:60-82 | Validation decides validity and caches an exact analysis; a cached one is trusted and right. |
| Publication.Catalog.ApplyChanges | crates/semantic-catalog/src/publication.rs:87-232 | A batch is applied as a whole or not at all, with one verdict, one report and one resulting pair of trees whether the cache was warm or cold; the next generation gets a snapshot of its own, seeded with the finished index of the previous one and the changed names; a refusal names the removal that misses or what is wrong with the outcome. |
| Publication.NothingChanged | crates/semantic-catalog/src/publication.rs:121-130 | An empty set of changes means an identical root. |
| CatalogStore.SameDigestSameCatalog | crates/semantic-catalog/src/publication.rs:1136-1144 | A matching digest identifies the catalog, even after other publications came and went in between. |
| CatalogStore.StepKeepsInvariant | crates/semantic-catalog/src/publication.rs:1125-1147 | Every step of any publisher keeps the stored catalog validated with an exact index and the log serial. |
| CatalogStore.PublicationsAreAtomic | crates/semantic-catalog/src/publication.rs:1125-1147 | Under every interleaving, the successful publications behave as if run alone, one after another, each on exactly the content it expected; failed ones change nothing. |
| CatalogStore.PublishedUniquely | crates/semantic-catalog/src/publication.rs:1140-1145 | A publication has only one possible outcome, whichever publisher computes it. |
| SearchTerms.Tokenize | crates/semantic-catalog/src/search.rs:367-394 | A term of a name weighs 4 even if hints or prose have it, any other term 1. |
| Postings.Accumulate | crates/semantic-catalog/src/search.rs:430-441 | Folding one list with saturating addition scores each object with its capped total, whatever the order of the entries. |
| Postings.FinishPostings | crates/semantic-catalog/src/search.rs:426-456 | The finished lists score every object with its saturated total per term and hold nothing else. |
| Postings.ScoresDetermine | crates/semantic-catalog/src/search.rs:426-456 | Posting lists without empty lists and zero weights are determined by their scores. |
| SearchIndex.IndexUnique | crates/semantic-catalog/src/search.rs:412-468 | The specification of an index fixes it completely, trees included. |
| SearchBuild.IndexBuilder.Insert | crates/semantic-catalog/src/search.rs:330-411 | One document gets the next entry number, its exact handles and its weighted terms. |
| SearchBuild.IndexBuilder.AddRelation | crates/semantic-catalog/src/search.rs:121-329 | A builder that has taken in some relations and takes in one more holds exactly those relations' documents, objects and fields. |
| SearchBuild.Footprints | crates/semantic-catalog/src/search.rs:413-425 | Footprints list, for each relation, exactly the terms its documents mention and its object and field counts. |
| SearchBuild.Build | crates/semantic-catalog/src/search.rs:471-476 | Building from scratch yields the index of the given relations. |
| SearchScores.ScoresExactly | crates/semantic-catalog/src/search.rs:426-456 | In a finished index an object is found by a term exactly when its documents score for it, with the sum of the scores up to 4294967295. |
| SearchScores.OneDocumentScores | crates/semantic-catalog/src/search.rs:367-411 | A document scores 100 for each normalised name, alias, synonym or qualified name; 4 for a term of a name, alias or synonym; 1 for a term found only in hints and texts. |
| SearchScores.FootprintExactly | crates/semantic-catalog/src/search.rs:413-447 | A finished index has one footprint per relation, listing exactly what some document of it can be found by, and its counts. |
| SearchScores.CountsExactly | crates/semantic-catalog/src/search.rs:413-465 | The counts of objects and fields are those of the relations added up. |
| PostingRanges.SameRange | crates/semantic-catalog/src/search.rs:637-666 | Comparing the two ranges in order decides whether the changed relations' part of a posting list is the same on both sides: the shortcut is taken exactly then. |
| SearchUpdate.Patched | crates/semantic-catalog/src/search.rs:667-688 | A patched list is the old one without the changed relations, plus the replacement. |
| SearchUpdate.UpdatePostings | crates/semantic-catalog/src/search.rs:625-695 | Patching the terms of old and new footprints gives, for every term, the scores of the new catalog; skipped terms included. |
| SearchUpdate.TallyAll | crates/semantic-catalog/src/search.rs:492-517 | Walking the changed relations replaces their footprints, moves the counts by the differences, and collects every term they used before or use now. |
| SearchUpdate.PatchedWeight | crates/semantic-catalog/src/search.rs:477-531 | Per term and object, the patch scores what the new catalog says. |
| SearchUpdate.Update | crates/semantic-catalog/src/search.rs:477-531 | Patching an index for the changed relations gives exactly the index of the new catalog. |
| Snapshots.CatalogSnapshot.SeedSearch | crates/semantic-catalog/src/snapshot.rs:304-320 | A snapshot keeps its predecessor's finished index and the changed names, and never a chain of them. |
| Snapshots.CatalogSnapshot.SearchIndexBudgeted | crates/semantic-catalog/src/snapshot.rs:353-382 | The cached, the patched and the rebuilt index are one and the same. |
| Generations.PatchedEqualsBuilt | crates/semantic-catalog/src/publication.rs:87-232 | Over any history of publications, accepted or refused, and whichever generations were asked for their index on the way, the index of the last one is the one a build from scratch gives, and its content is that of the accepted batches. |
| Allocation.AllocateConserves | crates/semantic-catalog/src/allocation.rs:274-292 | The magnitudes of the shares add up to the whole amount. |
| Allocation.ResidualBounds | crates/semantic-catalog/src/allocation.rs:282-291 | The floors never exceed the amount, and fewer units remain than there are targets. |
| Allocation.AllocateGives | crates/semantic-catalog/src/allocation.rs:285-292 | Each target receives its floor, plus one unit exactly when its rank by (remainder descending, target ascending) is below the residual. |
| Allocation.WithinOne | crates/semantic-catalog/src/allocation.rs:274-291 | Every magnitude is the floor or the ceiling of its exact quota. |
| Allocation.ExactGetsFloor | crates/semantic-catalog/src/allocation.rs:286-291 | A target with an exact quota never gains a unit; so a zero weight gets nothing. |
| Allocation.LargerWeightLargerShare | crates/semantic-catalog/src/allocation.rs:274-291 | A larger weight never receives a smaller magnitude. |
| Allocation.AllocateRearranged | crates/semantic-catalog/src/allocation.rs:285-292 | The allocation does not depend on the order of the claims. |
| VerifyAllocation.Collect | crates/semantic-catalog/src/allocation.rs:231-258 | Collecting fails exactly on a malformed or repeated target, a missing or negative weight, or a total beyond 128 bits, with the fault of the first row that has one. |
| VerifyAllocation.Divide | crates/semantic-catalog/src/allocation.rs:268-281 | Dividing fails exactly when some product does not fit 128 bits; the running floor sum always fits. |
| VerifyAllocation.Distribution | crates/semantic-catalog/src/allocation.rs:286-291 | Topping up in place gives one unit to each of the first shares and cannot overflow. |
| VerifyAllocation.Sign | crates/semantic-catalog/src/allocation.rs:293-318 | Every magnitude fits its signed type, the smallest 128-bit amount included, and the signed shares add up to the amount. |
| VerifyAllocation.VerifyAndAllocate | crates/semantic-catalog/src/allocation.rs:226-320 | Succeeds exactly on the accepted inputs with the signed largest-remainder allocation; result and error are those that the rows that count decide; never reports a conservation failure. |
| VerifyAllocation.OrderDoesNotMatter | crates/semantic-catalog/src/allocation.rs:226-292 | A permutation of the bridge rows changes neither acceptance nor the shares. |
| EligibleRows.OthersDoNotMatter | crates/semantic-catalog/src/allocation.rs:235-243 | Under an eligibility value a row with another value, or none, can be dropped or replaced without changing the result or the error. |
| EligibleRows.RowsThatCountDecide | crates/semantic-catalog/src/allocation.rs:234-243 | The rows that count, in their order, decide result and error: all rows, or those with the eligibility value. |
| EligibleRows.FirstFaultDecides | crates/semantic-catalog/src/allocation.rs:244-257 | The first row that counts and has a fault is reported: its target before its weight, its weight before the total. |
| EligibleRows.AcceptedExactly | crates/semantic-catalog/src/allocation.rs:231-281 | An amount is allocated exactly when no row that counts has a fault, their number and total weight are the expected ones and positive, and every product fits 128 bits. |
| EligibleRows.GoodPopulation | crates/semantic-catalog/src/allocation.rs:259-281 | Without faulty rows the outcome is an incomplete population, a zero denominator, an overflow or a result, each under exactly its own condition. |
| LargestRemainder.PaidTargets | crates/semantic-catalog/src/allocation.rs:231-318 | The targets paid are exactly those of the rows that count. |
| LargestRemainder.PaidInOrder | crates/semantic-catalog/src/allocation.rs:292-311 | There is one amount per row that counts, in strictly ascending lexicographic order of targets. |
| LargestRemainder.PaidFloorOrMore | crates/semantic-catalog/src/allocation.rs:274-311 | Each target is paid, in one place, the floor of its exact share or one unit more, with the sign of the amount. |
| LargestRemainder.LargestRestsGain | crates/semantic-catalog/src/allocation.rs:285-291 | A row that gains a unit has a larger remainder than one that does not, or the same and the smaller target. |
| LargestRemainder.PaidInFull | crates/semantic-catalog/src/allocation.rs:312-318 | The amounts add up to the amount allocated. |
| AllocationKernels.KernelGivesQuota | crates/semantic-engine/src/allocation.rs:91-110 | The kernel fails exactly on a bad weight or denominator, and otherwise gives the catalog's floor with the sign of the amount and the catalog's remainder. |
| AllocationKernels.ResidualIsSigned | crates/semantic-engine/src/allocation.rs:186-192 | The amount minus the sum of signed floors is the catalog's residual with the sign of the amount. |
| AllocationKernels.RowRefinesCatalog | crates/semantic-engine/src/allocation.rs:189-227 | With rank and residual derived from the other kernels, the share kernel never fails and returns what the catalog allocates to that target. |
| AllocationKernels.AssertionRefinesCatalog | crates/semantic-engine/src/allocation.rs:155-183 | A side condition of the refinement: the assertion kernel checks the population for completeness as the catalog does, with a positive weight and no repeated row. |
| NumericCodec.Decode | crates/semantic-postgres/src/codec.rs:66-105 | Decoding succeeds exactly when the bytes are well formed and the value at the scale is an integer within the precision, at most 38 digits, and returns that integer. |
| NumericCodec.PrefixIsWhole | crates/semantic-postgres/src/codec.rs:78-100 | If a number is whole at the scale then so is every prefix of its groups, so no intermediate step can fail on it. |
| NumericCodec.NextGroupFits | crates/semantic-postgres/src/codec.rs:78-100 | While decoding a representable number no power, product or sum overflows. |
| NumericCodec.Encode | crates/semantic-postgres/src/codec.rs:136-169 | The padding, grouping and header loop produces the specified message. |
| NumericCodec.EncodedDenotes | crates/semantic-postgres/src/codec.rs:136-169 | The encoded bytes denote the value at the same scale, so decoding an encoded value gives it back for every precision that can hold it. |
| NumericBytes.DenotesExactly | crates/semantic-postgres/src/codec.rs:66-105 | Which bytes are decoded to which value, in bytes: big-endian count, weight, sign 0 or 0x4000, scale and groups below ten thousand. |
| NumericBytes.EncodedSays | crates/semantic-postgres/src/codec.rs:136-169 | Every byte of an encoded 128-bit value is fixed: count and weight by the digits on either side of the point, sign, scale, and groups that come to the value without a leading zero group. |
| CacheDisk.AdmissionIsExact | crates/semantic-materialization/src/lib.rs:458-486 | The saturating admission test is exact for every budget but the largest 64-bit one, which it never enforces. |
| CacheProtocol.StepSafe | crates/semantic-materialization/src/lib.rs:162-333 | Every step of every fill, reader, invalidation, eviction, failure or crash keeps the locks exclusive, pointers within their key and the manifests within an enforced budget. |
| CacheGuarantees.StepKeepsIntact | crates/semantic-materialization/src/lib.rs:213-333 | A step takes from a generation that it is whole while leased or pointed to, and unknown while removed, exactly when it is the failure of that generation's own directory sync. |
| CacheGuarantees.StepKeepsLeased | crates/semantic-materialization/src/lib.rs:427-497 | In every reachable state, a step changes a directory that a reader leases exactly when it removes, wholly or in part, that directory after a failed fill, or cleans it up after it has lost its manifest that way. |
| CacheGuarantees.StepKeepsCurrent | crates/semantic-materialization/src/lib.rs:315-333 | A step leaves every CURRENT pointer on a complete generation exactly when it is not the removal of a failed fill that CURRENT names. |
| CacheGuarantees.LeasedNeverChanges | crates/semantic-materialization/src/lib.rs:392-426 | Over any run, with any budget, a generation whose own directory sync does not fail stays unchanged on disk for as long as some reader leases it, whatever becomes of others. |
| CacheGuarantees.AllRuns | crates/semantic-materialization/src/lib.rs:213-333 | Over all runs from an empty cache locks stay exclusive and the manifests within every budget but the largest 64-bit one, whatever fails; every generation whose own sync does not fail is whole while leased or pointed to; without any failed sync all leases and pointers are good. |
| CacheGuarantees.DroppedKeySticks | crates/semantic-materialization/src/lib.rs:141-160 | When the published directory of a failed fill has been removed, lookups of its key are errors. |
| CacheGuarantees.StuckUntilInvalidated | crates/semantic-materialization/src/lib.rs:213-240 | That stays so over every run until the key is invalidated: no reader gets it and no fill replaces it. |
| CacheExamples.FailedSyncExample | crates/semantic-materialization/src/lib.rs:324-328 | A run in which the directory sync fails after the rename ends with CURRENT naming nothing and the key stuck. |
| CacheExamples.LostLeaseExample | crates/semantic-materialization/src/lib.rs:312-328 | A reader that gets in between the failed sync and the removal ends up leasing a generation that is gone. |
| CacheExamples.LargestBudgetExample | crates/semantic-materialization/src/lib.rs:458-486 | With the largest budget, two undisturbed fills exceed it. |
| CacheEviction.CacheDirectory.ScanDirectory | crates/semantic-materialization/src/lib.rs:431-457 | The scan removes directories without a manifest and lists the others oldest first with their total. |
| CacheEviction.CacheDirectory.Evict | crates/semantic-materialization/src/lib.rs:427-487 | Eviction deletes unleased generations oldest first and only while needed, drops exactly the pointers to what it deletes, and fails exactly when the request does not fit beside the leased generations; with the largest budget it removes left-overs only. |
| CacheEviction.EvictedPinned | crates/semantic-materialization/src/lib.rs:458-487 | What is left is never less than what leases pin, and exactly that once all else is gone. |
| EvictionMeaning.StaysExactly | crates/semantic-materialization/src/lib.rs:431-472 | An eviction always removes directories without a manifest, never a leased generation or one with an unreadable manifest, and alters nothing that stays. |
| EvictionMeaning.OldestGoFirst | crates/semantic-materialization/src/lib.rs:458-487 | No removed generation is younger than one that stays without being leased. |
| EvictionMeaning.NothingGoesNeedlessly | crates/semantic-materialization/src/lib.rs:458-487 | When the request fits in the end, it would not have fitted beside the last generation removed. |
| EvictionMeaning.PointersGoAlong | crates/semantic-materialization/src/lib.rs:473-480 | A pointer goes exactly with the generation of its own key that it names. |
| CacheEffects.LeaseAfter | crates/semantic-materialization/src/lib.rs:392-426 | A lease begins with an answer or the end of a fill, on the generation answered with, and ends only when it is given back. |
| CacheEffects.PointerAfter | crates/semantic-materialization/src/lib.rs:163-333 | A pointer is set only by the fill of its key, and removed only by an invalidation of the key or with the generation it names. |
| CacheEffects.DirectoryAfter | crates/semantic-materialization/src/lib.rs:213-345 | A directory is touched only by its own fill, by a removal of it, and by the clean-up of left-overs. |
| CacheEffects.PhaseAfter | crates/semantic-materialization/src/lib.rs:213-345 | A fill goes through its phases in one order, taking the lock of its key, of writing and of the catalog, and may end at any point. |
| CacheEffects.OneAtATime | crates/semantic-materialization/src/lib.rs:213-345 | At most one worker fills, at most one evicts or publishes, and at most one is concerned with a key. |
| RegistrationOrder.RegistrationOrder | crates/semantic-engine/src/lib.rs:473-536 | An order is returned exactly when every dependency is in the catalog and none is circular; otherwise a missing dependency, or all relations from which lineage leads into a cycle, are named. |
| RegistrationOrder.DependenciesFirst | crates/semantic-engine/src/lib.rs:512-531 | In that order every dependency comes before what needs it. |
| RegistrationOrder.OrderUnique | crates/semantic-engine/src/lib.rs:512-531 | The order is determined by the catalog alone: first by dependencies, then alphabetically. |
| QueryEngine.Engine.RegisterProvider | crates/semantic-engine/src/lib.rs:385-408 | Registering a relation over existing dependencies keeps the catalog layered. |
| QueryEngine.Engine.CreateView | crates/semantic-engine/src/lib.rs:424-447 | A view is created exactly when its name is new and valid and all its dependencies are registered. |
| QueryEngine.Engine.FromCatalog | crates/semantic-engine/src/lib.rs:289-332 | Loading succeeds exactly when names, lineage and definitions are valid and every relation resolves; what passed the ordering cannot fail for a missing or repeated relation. |
| QueryEngine.Engine.AttachWrite | crates/semantic-engine/src/writes.rs:287-330 | A write binding attaches to base relations only, and afterwards a cache policy survives exactly for relations below which nothing may be written. |
| EngineLineage.LayeredNext | crates/semantic-engine/src/lib.rs:424-447 | Registering a relation over existing ones keeps the catalog layered. |
| EngineLineage.LayeredRanks | crates/semantic-engine/src/lib.rs:424-447 | The view graph of a layered catalog has no cycle. |
| QueryEngine.ReachableIsAcyclic | crates/semantic-engine/src/lib.rs:385-447 | So has that of every catalog an engine can reach. |
| QueryEngine.ValidNameExactly | crates/semantic-engine/src/lib.rs:598-606 | A name is valid exactly when it consists of ASCII small letters, underscores and, after the first place, digits. |
| EngineLineage.ExpandingShrinks | crates/semantic-engine/src/writes.rs:860-866 | Replacing a view by its dependencies leaves the worklist less to do although it remembers nothing. |
| EngineLineage.BaseDependencies | crates/semantic-engine/src/writes.rs:858-873 | The worklist ends and returns exactly the base relations reachable from the query, or an error exactly when a reference is unknown. |
| EngineLineage.ExcludedReachesWritten | crates/semantic-engine/src/reads.rs:144-169 | A relation is excluded from caching exactly when something it reads is, or may be, written. |
| EngineLineage.ExcludedByBases | crates/semantic-engine/src/reads.rs:144-169 | That holds exactly when it holds of one of the base relations it reads. |
| EngineLineage.ExcludedExactly | crates/semantic-engine/src/reads.rs:144-169 | A relation is excluded exactly when something it reads is written, or cannot be told from something written by namespace or by a different name in one known domain. |
| QueryEngine.Engine.IsExcluded | crates/semantic-engine/src/reads.rs:144-169 | The recursive check over bindings, resource identities and dependencies decides it. |
| Freshness.Needed | crates/semantic-engine/src/materialization.rs:86-99 | Growing the set until its size settles yields exactly what the query reads through views. |
| Freshness.AllowedAges | crates/semantic-engine/src/materialization.rs:100-130 | The loop ends, and gives each relation the smallest age limit of all needed relations that read it, and none when there is none. |
| RendererMeaning.ExprMeans | crates/semantic-clickhouse/src/policy.rs:82-104 | A rendered expression has the value of the original when its names read what the columns read. |
| RendererMeaning.FunctionMeans | crates/semantic-clickhouse/src/policy.rs:643-655 | Given that ClickHouse's lowerUTF8 and upperUTF8 map case as a plan's lower and upper do, and other functions agree by name, a rendered call has the value of the plan's call. |
| RendererScope.RendersExactly | crates/semantic-clickhouse/src/policy.rs:82-100 | A plan is rendered exactly when every column refers to a field of its input and every projected column is stored. |
| RendererMeaning.JoinedAgrees | crates/semantic-clickhouse/src/policy.rs:259-262 | A join filter rendered over two aliases reads the concatenated row. |
| RendererAggregates.ConditionIsTwoValued | crates/semantic-clickhouse/src/policy.rs:663-671 | The condition put in place of FILTER is never NULL and true exactly where the filter is. |
| RendererAggregates.AggregateMeans | crates/semantic-clickhouse/src/policy.rs:618-701 | Renamed and rewritten aggregate calls, COUNT, DISTINCT and FILTER included, give the plan's aggregate over rows in any order. |
| OperatorBags.JoinSimulates | crates/semantic-clickhouse/src/policy.rs:259-319 | Every join kind over rearranged inputs yields the rearranged join. |
| OperatorBags.GroupedSimulates | crates/semantic-clickhouse/src/policy.rs:189-217 | Grouping rearranged rows yields the same groups. |
| OperatorMeaning.JoinPlanExactly | crates/semantic-clickhouse/src/policy.rs:259-319 | What a join of each kind means for the plan: how often it returns a row, counted over the matching pairs and the rows with or without a partner. |
| GroupMeaning.GroupsExactly | crates/semantic-clickhouse/src/policy.rs:189-217 | What a grouping means for the plan: one row for each key of an input row, with each aggregate of the rows of that key. |
| RenderPreserves.MatchMeans | crates/semantic-clickhouse/src/policy.rs:259-275 | Rendered key equalities and filter match exactly the pairs the plan joins, when right keys do not resolve on the left. |
| RenderPreserves.RenderMeans | crates/semantic-clickhouse/src/policy.rs:109-351 | Rendering preserves the bag of rows of every renderable plan for every database, however the remote side orders intermediate results, zero-column plans included. |
| RenderPreserves.StatementMeans | crates/semantic-clickhouse/src/policy.rs:61-76 | The statement sent returns the plan's rows under the plan's field names; a plan without columns returns one constant per row. |
| RendererExactness.ColumnKeyExact | crates/semantic-clickhouse/src/policy.rs:82-95 | Over any two schemas, a key on two columns matches the same pairs of rows remotely and locally exactly when the right column does not resolve on the left. |
| RendererExactness.ColumnJoinExact | crates/semantic-clickhouse/src/policy.rs:259-319 | A join of any kind on such a key, over two subqueries that each read a table under aliases and renamings, is rendered faithfully for every database exactly when the right column does not resolve on the left. |
| RendererExactness.ShadowedSemiJoinExample | crates/semantic-clickhouse/src/policy.rs:259-319 | A semi join of two subqueries on an output column that both call by the same unqualified name returns other rows remotely than locally. |
| RendererExactness.EmptyRelationExact | crates/semantic-clickhouse/src/policy.rs:341-349 | An empty relation is rendered faithfully exactly when it declares no column. |
| RenderPreserves.KeyedJoinHasOutput | crates/semantic-clickhouse/src/policy.rs:275-319 | A join on a key that names a column of either side never has an empty select list, whatever its kind. |
| SourceTree.UnescapeEscape | crates/semantic-catalog/src/source.rs:84-98 | Unescaping an escaped key gives the key back (RFC 6901, sections 3 and 4). |
| SourcePointer.Resolve | crates/semantic-catalog/src/source.rs:84-98 | The cursor loop finds the node that a JSON Pointer resolves to, or nothing. |
| SourcePointer.PointerFinds | crates/semantic-catalog/src/source.rs:84-98 | The pointer of any position resolves to the node at that position. |
| SourcePointer.ProvenanceIsPointer | crates/semantic-ossie/src/source.rs:189-217 | In a normalised document the last origin of every position is its RFC 6901 pointer, and that pointer leads back to it. |
| SourceNormalizer.AddOriginContent | crates/semantic-ossie/src/source.rs:208-228 | An alias stands for the same content as its anchor. |
| SourceNormalizer.AddOriginPlaced | crates/semantic-ossie/src/source.rs:208-228 | An expanded alias is placed, node by node, where it appears. |
| SourceNormalizer.ReadNodeSound | crates/semantic-ossie/src/source.rs:71-206 | Every tree read is placed where it was read and no larger than the budget it used; an alias is charged what its anchor cost. |
| SourceNormalizer.FillInFinds | crates/semantic-ossie/src/source.rs:168-171 | An explicit key beats a merged one. |
| SourceNormalizer.InheritFinds | crates/semantic-ossie/src/source.rs:146-166 | Among merged mappings the first one that has a key wins, placed under the merging mapping. |
| MergePrecedence.MappingFinds | crates/semantic-ossie/src/source.rs:129-178 | In any mapping that was read, with any number of merge keys, a key has its explicit entry if there is one, otherwise what the first merged mapping with that key says, and otherwise nothing. |
| DocumentReader.Reader.Next | crates/semantic-ossie/src/source.rs:71-206 | The recursive reader over its event queue, anchors and budget computes the specified reading, errors included. |
| DocumentReader.Normalize | crates/semantic-ossie/src/source.rs:9-45 | An accepted document has at most a million nodes after expansion, all placed, and is read from one document only. |
| ReadingRoundTrip.ReadsBack | crates/semantic-ossie/src/source.rs:71-206 | Any tree without repeated or merge keys and within the limits, written out as events, reads back as that tree with every node at its place, whatever follows. |
| ReadingRoundTrip.WholeDocument | crates/semantic-ossie/src/source.rs:9-45 | A document of at most a million nodes and at most 128 levels below its root is read whole. |
| ReadingRoundTrip.AnchorKept | crates/semantic-ossie/src/source.rs:180-206 | What a node with an anchor was read as is remembered with what it cost. |
| ReadingRoundTrip.AliasReads | crates/semantic-ossie/src/source.rs:180-206 | An alias reads as the content of its anchor, placed where it stands and charged what that cost, exactly when the budget allows. |
| SourceDepth.DepthWithinBudget | crates/semantic-ossie/src/source.rs:71-76 | The depth of a tree that was read is at most the budget it used. |
| SourceDepth.DeeperThanWritten | crates/semantic-ossie/src/source.rs:71-206 | For every nesting within the depth limit there is an accepted document whose tree is more than twice as deep. |
| AggregateRuns.BatchInRun | crates/semantic-engine/src/checked_mean.rs:97-111 | Inside a run, a stretch of rows is one batch; how it is cut does not matter. |
| CheckedMean.MeanState.UpdateBatch | crates/semantic-engine/src/checked_mean.rs:88-111 | The batch loop adds its valid rows one by one and fails exactly when one addition does. |
| CheckedMean.BatchingDoesNotMatter | crates/semantic-engine/src/checked_mean.rs:88-168 | Any two runs over the same rows, however batched and merged, succeed or fail alike, exactly by the number of rows, with the same state. |
| CheckedMean.MeanFits | crates/semantic-engine/src/checked_mean.rs:112-132 | The mean of Int64 rows never exceeds 38 digits and is the exact quotient cut off after 18 decimals. |
| CheckedMean.CatalogAgrees | crates/semantic-catalog/src/metric_state.rs:175-184 | The catalog's 128-bit finalisation agrees exactly when its product fits. |
| CheckedMean.CatalogRefusesMean | crates/semantic-catalog/src/metric_state.rs:175-184 | Nineteen rows give a mean that the engine returns and the catalog refuses. |
| AggregateMeaning.MeanExactly | crates/semantic-engine/src/checked_mean.rs:88-168 | However rows are batched, the mean is that of the values present, cut off after 18 decimals; NULL without values; and fails exactly when they are more than a 64-bit number. |
| CheckedDistinct.DistinctExact | crates/semantic-engine/src/checked_distinct.rs:88-147 | A run succeeds exactly when its rows have no more identities than the limit, and then holds precisely those. |
| CheckedDistinct.ExactDistinctState.MergeState | crates/semantic-engine/src/checked_distinct.rs:88-94 | Inserting the identities of another state one by one is taking the union, refused exactly when that is too large. |
| AggregateMeaning.DistinctExactly | crates/semantic-engine/src/checked_distinct.rs:88-147 | A run holds a value exactly when some row has it, and succeeds exactly when there are no more values than the limit. |
| CheckedSnapshot.SuccessIsLatest | crates/semantic-engine/src/checked_snapshot.rs:79-94 | Every successful run yields the value at the greatest (time, tie) key. |
| CheckedSnapshot.SuccessesAgree | crates/semantic-engine/src/checked_snapshot.rs:79-179 | Successful runs over the same rows agree. |
| CheckedSnapshot.ConflictAtTopFails | crates/semantic-engine/src/checked_snapshot.rs:79-94 | A value conflict at the greatest key makes every run fail. |
| CheckedSnapshot.NoConflictSucceeds | crates/semantic-engine/src/checked_snapshot.rs:79-179 | With no conflict at any key every run succeeds. |
| CheckedSnapshot.ConflictFirstFails | crates/semantic-engine/src/checked_snapshot.rs:79-94 | Two conflicting rows that come first fail whatever follows. |
| CheckedSnapshot.EveryOrderSucceeds | crates/semantic-engine/src/checked_snapshot.rs:79-179 | All orders, batchings and merge trees of some rows succeed exactly when every row has a key and no key a conflict. |
| AggregateMeaning.LatestExactly | crates/semantic-engine/src/checked_snapshot.rs:79-179 | A successful run gives the value of an observation that no other is later than, by time and then by tie-break. |
| CheckedWeighted.SuccessIsExact | crates/semantic-engine/src/checked_weighted.rs:86-177 | A successful run holds the exact sums of its rows. |
| CheckedWeighted.NegativeWeightFails | crates/semantic-engine/src/checked_weighted.rs:86-96 | A negative weight makes every run fail. |
| CheckedWeighted.WeightedMeanFits | crates/semantic-engine/src/checked_weighted.rs:125-143 | A weighted mean that was not refused fits 38 digits and is the exact quotient cut off after 18 decimals. |
| CheckedWeighted.OrderCanOverflow | crates/semantic-engine/src/checked_weighted.rs:86-117 | Four rows overflow in one order and succeed in another. |
| CheckedWeighted.EveryOrderSucceeds | crates/semantic-engine/src/checked_weighted.rs:86-177 | All orders, batchings and merge trees of some rows succeed exactly when no weight is negative and the weights, the positive products and the negative products each fit 128 bits. |
| AggregateMeaning.WeightedExactly | crates/semantic-engine/src/checked_weighted.rs:87-177 | A successful run gives the sum of products over the sum of weights of the rows with both, cut off after 18 decimals; NULL if the weights come to nothing. |
| CheckedSum.BatchingDoesNotMatter | crates/semantic-engine/src/checked_sum.rs:102-198 | Every run over the same rows succeeds with the same 256-bit sum. |
| CheckedSum.RefusedExactly | crates/semantic-engine/src/checked_sum.rs:135-154 | However it was run, a sum is NULL exactly without values, and refused exactly when the declared type cannot hold it. |
| AggregateMeaning.SumExactly | crates/semantic-engine/src/checked_sum.rs:103-198 | However rows are batched, the result is the sum of the values present, NULL without any, and refused exactly outside the declared type. |
| CheckedDistinctSum.DistinctValuesDecide | crates/semantic-engine/src/checked_sum.rs:102-198 | Every run of a DISTINCT sum succeeds with the sum of the distinct values of its rows, however often and in however many partial states each value occurs. |
| AggregateMeaning.DistinctSumExactly | crates/semantic-engine/src/checked_sum.rs:102-198 | The distinct sum is that of any list of the values present that repeats none. |

## Left out

- Work limits and their counters (`max_objects`, `max_edges`, the search callback): a run that reaches one fails; the results are about the others.
- The definition checks that read the catalog through a snapshot (view lineage, allocations, currency rates, business calendars): a draft still carries the previous generation's snapshot while it is checked, so these are kept as dependency edges only.
- Validation.ValidateDefinition: does not model the checks that go through a snapshot, which are kept as edges only; the checks that read one relation alone (units, enumerations, concepts, metric types) are one arbitrary predicate.
- Validation.Validate: validity is that of the modelled definition checks, as for `Validation.ValidateDefinition`.
- Validation.CheckMetrics: decides that every named field exists; the identity, grain, unit and state-type checks of metrics read one relation alone and belong to the arbitrary predicate.
- Which of several errors a publication reports: the warm and the cold path look in different orders, so acceptance is compared and each error is shown to be true of the catalog it was found in.
- Concurrent use of one snapshot's search slot: the slots are modelled for one caller at a time.
- `SearchIndex::search`, the ranking of hits for a query.
- How discovery normalises text and splits it into terms: both are arbitrary functions; so are the documents that a relation gives rise to.
- SHA-256, canonical JSON and schema digests: arbitrary functions, injective where stated.
- The contract checks of allocation policies before an allocation runs (`AllocationContract::validate`), and SQL that computes ranks and sums around the kernels: rank and residual are defined by what that SQL is specified to compute.
- Sequence lengths beyond what memory can hold, so that the residual's conversion to a machine index is not a separate error.
- `decimal_type` and the array codecs of the PostgreSQL connector.
- The in-memory copies of a materialization (`admit_memory`) and the freshness test of a cached generation; a read served from memory takes no lease and touches no file. File contents, the lock files themselves and clocks are abstracted to steps and parameters.
- Generations whose manifest file exists but cannot be parsed are never counted and never removed; the budget is about readable manifests.
- `GeneratedPlanCache`, transactions and read sessions.
- QueryEngine.Engine.AttachWrite: decided by the relation's kind alone; the column and schema checks of write bindings are not modelled.
- CacheEviction.CacheDirectory.Evict: an enforced budget assumes that the recorded bytes add up to a 64-bit number.
- RenderPreserves.MatchMeans: needs right join keys that do not resolve on the left. That is necessary for a single pair of columns (`RendererExactness.ColumnKeyExact`); with several keys or with expressions as keys a shadowed one can give the same rows by coincidence.
- RenderPreserves.RenderMeans: excludes the plans with shadowed keys, as `RenderPreserves.MatchMeans`, empty relations with columns, which are never rendered faithfully, and aggregations and keyless joins without an output column.
- RenderPreserves.StatementMeans: excludes the same plans as `RenderPreserves.RenderMeans`.
- Sort, limit, window functions and scan limits of the renderer, casts, CASE, LIKE, BETWEEN, IN lists, arithmetic and date parts; scalar functions are one-argument functions by name that agree on both sides. Floating point is excluded by the renderer itself. The text of the SQL is abstracted to its syntax tree, `__cN` to positions.
- The `supported` test and the splitting of a plan into remote and local parts.
- Mappings are kept as lists of distinct keys; their sorted order carries no meaning here. The typing of scalars is a parameter, and so is the YAML parser.
- Pointers that are not RFC 6901 spellings but still resolve, such as indices with leading zeros or a plus sign: `SourcePointer.Resolve` computes them, no property is claimed about them.
- The byte-identity distinct state of the catalog and its snapshot selection over string tie-breaks.
- CheckedSum.BatchingDoesNotMatter: assumes fewer rows than a signed 128-bit number counts, which keeps the 256-bit sum from overflowing; likewise `CheckedDistinctSum.DistinctValuesDecide`.
- CheckedWeighted.SuccessIsExact: compares successful runs only; when all runs succeed is `CheckedWeighted.EveryOrderSucceeds`.
- Command line, HTTP and PostgreSQL servers, model providers, the interpreter, connection transports, metrics counters, and messages of errors.
