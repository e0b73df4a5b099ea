# Metadata pipeline: a verified model

The metadata pipeline extracts table schemas, lets domain experts review them in YAML files, generates documents
from schema and review, has the generated text approved, cuts approved documents into chunks, and keeps a vector
index in step with them. This project models its state machines, reconcilers and canonical forms in Dafny and
proves what they keep over whole runs.

`dafny verify dfyconfig.toml` checks the whole project.

## Structure

| part | modules |
|---|---|
| vector index: store, embedder, client, reconciler | `VectorStore`, `Embedding`, `Qdrant`, `ApplyIndex`, `Reconciliation` |
| from approved documents to the index, end to end | `IndexPipeline` |
| candidate life cycle, its sync and its histories | `Markdown`, `MarkdownFacts`, `CandidateLifecycle`, `CandidatePlanning`, `CandidateSync`, `CandidateRuns`, `CurrentCandidates`, `PreflightFacts` |
| schema parsing rules, hash and drift summary | `TblsSchema`, `SchemaHashing`, `SchemaSummary` |
| draft refresh and the separate review validator | `Drafts`, `DraftTheorems`, `DraftFacts`, `ReviewValidation` |
| staged sync of many databases and its reports | `ScheduledSync`, `SyncTheorems`, `CleanupEntries`, `InterruptedSync`, `SyncFacts`, `SyncReports`, `CumulativeReports`, `ShopRuns` |
| chunks, manifest, diff | `SemanticKeys`, `Chunks`, `ChunkTheorems`, `ChunkFacts`, `CatalogChunks`, `IndexManifests`, `IndexDiff` |
| fact lock, generators, Git output | `Dumps`, `PublishedValidation`, `Generators`, `DocumentFacts`, `GitParsers` |
| shared records and library | `Models`, `Wrappers`, `Ordering`, `Sorting`, `Dictionaries`, `Text` |

Code that loops and mutates is a method or a class whose contract ties it to a specification function or
predicate; the theorems are about those. The modules named `...Facts` say what each output means in terms of the
inputs, without the functions that compute it. External services keep only their contract: a vector client whose failing
request applied any subset of its batch, an embedding gateway that answers in any order or fails, a generator and a
schema extractor that answer anything.

## Hypotheses

They appear as explicit `requires` clauses wherever they are used.

- SHA-256 and name-based UUIDs (section 5.5 of RFC 9562) are function parameters. Where a result needs it they are
  assumed injective. A theorem that assumes injectivity never also assumes that every hash is a 64-digit string, only
  that those of the chunks at hand are.
- The textual form of a relation, by which the drift summary sorts, shows every field and so is injective.
- YAML text that is written reads back as the same review, and only valid reviews are read.
- Lower-casing, case folding, vector normalisation, YAML dumping and the heuristics that fill a new draft are
  arbitrary functions of their arguments.
- `RerunSucceeds` and `CrashRecovers` assume that a rerun has the same request, so that its generator answers as it
  did before the crash. `LaterRunSucceedsExactly` and `CrashRecoversWith` do not: only selection and configured
  identity stay. All of them, and the results on a second run, assume that generated candidates carry the configured
  identity (`AllOwn`); it holds of every generator that names it (`NamedIdentityOwn`).
- `CompletedRunAligns` and `CatalogIndexed` assume one embedding function over all runs of a history: one model, whose
  vector depends only on the text.
- A profile key follows its pattern (`domain/catalog.py:16`), and so contains no `.`.
- Vector points are well placed: every managed point sits at the point id of its chunk id. It holds of an empty
  store and is proved to be kept; what happens without it is stated exactly in `FaultFreeRunVerifies`.

## Where the code does less than its documentation suggests

- `domain/hashing.py:16` calls the table hash stable. It depends on the order of relations that share their
  endpoints; `OrderFreeExactly` says when it does not.
- `application/create_drafts.py:60` promises not to overwrite human content. A new draft overwrites a file of its
  name that declares another table; `CoversAndKeepsExactly` gives the exact condition.
- `application/scheduled_schema_sync.py:120` says everything succeeded before the catalog changes. The report is
  validated only afterwards, and for table names such as `a` and `a-b` it is refused then; `HyphenRunRefused` is
  such a run.
- `application/scheduled_schema_sync.py:73` publishes all changes together. Cut off after a schema file was
  replaced and before that database's reviews were, the sync never catches up: a rerun compares schema files only
  and finds no drift. `InterruptedRunRecoversExactly` gives the exact condition, `CutRunLosesReviews` a run.
- `validation/chunks.py` can reject what `build_chunks` built: the body hash is taken before the record strips the
  content, which matters when a caveat list ends in an empty entry.
- Promotion of an unchanged candidate can be refused: the reviewable body is taken from the first marker in the
  text, and a display name may contain it.
- `apply_index` can fail its own verification without any fault: when a planned point id holds a managed chunk that
  is not planned, which is then lost, and when a planned chunk is also stored, with another hash, at a point id that
  is not planned, which makes it a duplicate. `FaultFreeRunsFail` gives a store for each.

## Model

| member | source | states |
|---|---|---|
| `ApplyIndex.Apply` | src/metadata_pipeline/application/apply_index.py:18-125 | Whatever happens, the collection is in a state that some legal cut of one run reaches. Success leaves exactly the verified uninterrupted result, and every point it wrote says, field by field, what its chunk, the manifest and the settings say; the summary is consistent and names collection, manifest and document count, with upserted + skipped = chunk count. A failing embedding changes no point. Only contents of planned chunks are sent to the embedder. Duplicate ids are an error, and only they give that error |
| `ApplyIndex.Mutate` | src/metadata_pipeline/application/apply_index.py:52-68 | All planned upserts are in before the first stale point goes; a failure on the way is a legal cut |
| `ApplyIndex.VerifyState` | src/metadata_pipeline/application/apply_index.py:133-153 | The verification read accepts only the desired id-to-hash map, and without a client fault it rejects only something else |
| `ApplyIndex.PlanComputed` | src/metadata_pipeline/application/apply_index.py:43-50 | The plan computed from the listed states is the collection's own: wrong or missing chunks, and the points of chunks no longer desired |
| `Reconciliation.RetriesConverge` | src/metadata_pipeline/application/apply_index.py:43-70 | Any number of runs on one manifest, each cut off at any batch with any subset applied: the store stays well placed, the work left never grows, no stale point goes before every desired chunk is right, and one uninterrupted run still ends in the same collection |
| `Reconciliation.WorkIsConserved` | src/metadata_pipeline/application/apply_index.py:43-68 | (Missing or wrong) plus (stale) falls by exactly the number of points written and deleted: nothing is done twice |
| `Reconciliation.ResumeCompletes` | src/metadata_pipeline/application/apply_index.py:43-70 | Finishing what a cut-off run left gives the uninterrupted run's collection |
| `Reconciliation.NeverAbsent` | src/metadata_pipeline/application/apply_index.py:52-68 | A desired chunk that is stored stays stored at every moment of every history of cut-off runs |
| `Reconciliation.FaultFreeRunVerifies` | src/metadata_pipeline/application/apply_index.py:133-145 | From any readable store without duplicate ids a run without faults passes its own verification if and only if every managed point at a planned point id holds a planned chunk, and every managed point of a planned chunk sits at a planned point id |
| `Reconciliation.FaultFreeRunsFail` | src/metadata_pipeline/application/apply_index.py:133-145 | Both failures happen: one manifest of two well-formed chunks and two readable stores without duplicates, from which a run without faults does not verify |
| `Reconciliation.TakenSlotFails` | src/metadata_pipeline/application/apply_index.py:52-58 | For every manifest with two chunks: one of them stored correctly, but at the other's point id, makes a run without faults fail its verification |
| `Reconciliation.StrayPointFails` | src/metadata_pipeline/application/apply_index.py:52-58 | For every manifest: a chunk stored with a wrong hash at a point id of no desired chunk makes a run without faults fail its verification |
| `Reconciliation.ForeignPointsKept` | src/metadata_pipeline/adapters/index/qdrant.py:172-180 | Points of other owners survive a run if and only if none sits at a planned point id |
| `Reconciliation.ForeignPointsKeptWhenCut` | src/metadata_pipeline/adapters/index/qdrant.py:110-142 | The same protection at every moment of a cut-off run |
| `Reconciliation.CompletedRunAligns` | src/metadata_pipeline/application/apply_index.py:52-125 | With a collision-free hash and one embedding function, after any history of cut-off runs of any manifests, one completed run leaves every managed point, the skipped ones too, with the desired chunk's content and the vector of that content, and with its database, table, qualified name as document id, chunk type, schema hash, source commit, model and prompt version |
| `Reconciliation.UpsertsTell` | src/metadata_pipeline/application/apply_index.py:85-125 | A verified run leaves at each planned point id the chunk's own facts and the manifest hash, model and dimension of the run |
| `IndexManifests.OwnerNamed` | src/metadata_pipeline/domain/index.py:57-90 | In a valid indexed document the chunks whose parent is named after their table carry the document's id as qualified name |
| `IndexManifests.DocumentValidExactly` | src/metadata_pipeline/domain/index.py:57-90 | The validators of an indexed document accept exactly documents that list eligible chunks of their own and of one version, each id once |
| `IndexManifests.ManifestValidExactly` | src/metadata_pipeline/domain/index.py:93-130 | The manifest validators accept exactly manifests whose documents are strictly ordered by id and whose hash is the canonical one |
| `IndexPipeline.ManifestHoldsBatch` | src/metadata_pipeline/application/index_changes.py:83-102 | A manifest built from a clean batch of eligible chunks holds exactly the chunks of the batch, each id once |
| `IndexPipeline.BatchMakesHonestJob` | src/metadata_pipeline/domain/index.py:66-130 | The chunks of accepted documents with distinct names always build a manifest, and applying it is a valid job that desires exactly those chunks under their own ids, each with the hash of its own body |
| `IndexPipeline.CatalogIndexed` | src/metadata_pipeline/application/apply_index.py:43-125 | End to end: after any history of cut-off runs of any honest manifests, one completed run of the manifest built from the accepted documents verifies, and the store then holds exactly the chunks of those documents, each at its point id with its content and the vector of that content. Every point names the database, table, versions and origin of the published document it was cut from, and the id of the manifest document that lists its chunk |
| `Embedding.SortRestoresOrder` | src/metadata_pipeline/adapters/embedding/openai_compatible.py:63-71 | Sorting a reply by index restores the order of the texts whatever permutation came back |
| `Embedding.Embedder.Embed` | src/metadata_pipeline/adapters/embedding/openai_compatible.py:56-85 | One request: vector i belongs to text i, has the configured dimension, and errors only if the gateway failed or a text has no usable vector |
| `Embedding.Embedder.EmbedDocuments` | src/metadata_pipeline/adapters/embedding/openai_compatible.py:47-51 | Batches of at most 100 texts compose: vector i belongs to text i over all batches, and a prefix of the texts was sent |
| `Qdrant.QdrantVectorIndex.ListChunkStates` | src/metadata_pipeline/adapters/index/qdrant.py:80-108 | Every managed point exactly once, in chunk-id order, however many pages it takes; a bad payload is an error |
| `Qdrant.QdrantVectorIndex.Upsert` | src/metadata_pipeline/adapters/index/qdrant.py:110-129 | On failure whole batches of 128 and some subset of the next one are in, and nothing else changed; on success all are in |
| `Qdrant.QdrantVectorIndex.Delete` | src/metadata_pipeline/adapters/index/qdrant.py:131-142 | On failure whole batches of 128 and some subset of the next one are gone, and nothing else changed; on success all are gone |
| `SemanticKeys.SemanticKeyIsKey` | src/metadata_pipeline/application/build_chunks.py:179-181 | Every value gets a key over `[a-z0-9-]` without leading, trailing or doubled hyphen |
| `SemanticKeys.SemanticKeyExactly` | src/metadata_pipeline/application/build_chunks.py:179-181 | The key is the maximal runs of letters and digits of the lower-cased value, in order, joined by hyphens, or `item` if there are none |
| `SemanticKeys.SemanticKeyIdempotent` | src/metadata_pipeline/application/build_chunks.py:179-181 | A key is its own key |
| `SemanticKeys.ChunkIdDecodes` | src/metadata_pipeline/application/build_chunks.py:145-160 | A chunk id determines its qualified name, type and key, read from the right, whatever colons the name contains |
| `Chunks.BuildChunks` | src/metadata_pipeline/application/build_chunks.py:21-29 | The built chunks are those of the overview, columns, relationships, rules and guidance in id order, the function the theorems are about |
| `Chunks.ValidateChunks` | src/metadata_pipeline/validation/chunks.py:12-131 | The issues appended check by check are the ones the theorems are about |
| `ChunkTheorems.BuiltChunksAccepted` | src/metadata_pipeline/validation/chunks.py:18-131 | For well-formed documents the validator accepts what the builder builds if and only if normalised keys are pairwise distinct within columns, relationships and rules, and no caveat list ends in an empty entry |
| `ChunkTheorems.BuiltChunkClean` | src/metadata_pipeline/application/build_chunks.py:145-176 | One built chunk passes the hash, parent and context checks if and only if stripping leaves its content alone |
| `ChunkTheorems.EmptyLastCaveatRejected` | src/metadata_pipeline/application/build_chunks.py:176 | The caveats `late rows` and an empty one make the validator reject what the builder built |
| `ChunkTheorems.IdsDistinct` | src/metadata_pipeline/application/build_chunks.py:21-29 | The ids of one document's chunks are distinct if and only if keys are distinct within each kind |
| `ChunkFacts.AcceptedTells` | src/metadata_pipeline/application/build_chunks.py:21-176 | The chunks of an accepted document tell all of it and nothing else: the table, and each column, relationship and rule in a chunk under its own key, with each field on its own labelled line and its own evidence; guidance exactly if there are quality, security or caveat notes, with the evidence of exactly the columns neither internal nor public |
| `ChunkFacts.ChunksAcceptedExactly` | src/metadata_pipeline/validation/chunks.py:12-131 | For any chunks whatever, the validator accepts exactly those with distinct ids, one overview, each with its own hash, parent and table name, and for each column and relationship a chunk under its id that contains the required facts |
| `CatalogChunks.PrepareCatalogChunks` | src/metadata_pipeline/application/catalog_chunks.py:29-51 | Succeeds if and only if every file loads, is intact and yields accepted chunks, and no two promoted documents share a qualified name; then the batch is a permutation of all their chunks, and is clean. The duplicate error is exactly the shared-name case |
| `CatalogChunks.PromotedExactly` | src/metadata_pipeline/application/catalog_chunks.py:29-46 | The documents collected are exactly those of the promoted candidates in the directories |
| `CatalogChunks.DuplicateExactly` | src/metadata_pipeline/application/catalog_chunks.py:47-49 | Over accepted documents, chunk ids are distinct if and only if qualified names are |
| `CatalogChunks.ClashExactly` | src/metadata_pipeline/application/catalog_chunks.py:47-49 | The chunks of two documents share an id if and only if the documents share a qualified name |
| `CatalogChunks.BatchClean` | src/metadata_pipeline/application/catalog_chunks.py:33-51 | The chunks of accepted documents with distinct names form a clean batch: sound, unique, one version per document |
| `IndexManifests.BuildIndexManifest` | src/metadata_pipeline/application/index_changes.py:83-102 | Grouping chunk by chunk builds the manifest the theorems are about, or its error |
| `IndexManifests.CleanBatchManifest` | src/metadata_pipeline/domain/index.py:66-130 | A clean batch builds a manifest that meets every document and manifest validator |
| `IndexManifests.ManifestOrderFree` | src/metadata_pipeline/application/index_changes.py:83-102 | Any order of the chunks builds the same manifest |
| `IndexDiff.DiffManifestChunks` | src/metadata_pipeline/application/index_changes.py:105-137 | The loop yields one action per id of the union, in order |
| `IndexDiff.DiffIsPatch` | src/metadata_pipeline/application/index_changes.py:105-137 | Performing the actions on the old id-to-hash map gives the new one, and each id of the union occurs once, in order |
| `IndexDiff.ActionsTell` | src/metadata_pipeline/application/index_changes.py:105-137 | Each action names the hashes its chunk has in both manifests, if any, and its reason and operation are exactly the ones these hashes call for |
| `IndexDiff.DiffUpsertsArePlanned` | src/metadata_pipeline/application/index_changes.py:105-137 | When the store holds the old manifest, the diff's upserts are exactly the chunks an index apply plans to write |
| `IndexDiff.DiffDeletesArePlanned` | src/metadata_pipeline/application/index_changes.py:105-137 | And its deletions are exactly the chunks of the points an index apply plans to delete |
| `IndexDiff.ReconcileIndex` | src/metadata_pipeline/application/index_changes.py:54-80 | Saves the new manifest and reports the chunk ids of changed documents on each side |
| `IndexDiff.ReportsAgree` | src/metadata_pipeline/application/index_changes.py:62-80 | Created ids are only in the upserted list, removed ids only in the deleted list, updated ids in both |
| `TblsSchema.RejectDuplicateNames` | src/metadata_pipeline/adapters/schema/tbls_json.py:153-159 | Accepts exactly the lists without repeated names |
| `TblsSchema.ValidateSchema` | src/metadata_pipeline/adapters/schema/tbls_json.py:133-150 | Accepts exactly the schemas with unique names whose relations resolve, column by column, at both ends |
| `TblsSchema.ParserValidExactly` | src/metadata_pipeline/adapters/schema/tbls_json.py:133-159 | A schema is accepted if and only if table names are distinct, column names are distinct within each table, and every relation has as many columns at both ends and finds them all in declared tables |
| `SchemaHashing.PayloadInvariant` | src/metadata_pipeline/domain/hashing.py:15-61 | With distinct column names and no two incident relations sharing endpoints, any permutation of columns, tables and relations gives the same payload |
| `SchemaHashing.PayloadDetermines` | src/metadata_pipeline/domain/hashing.py:15-61 | Equal payloads come from equal facts: the same database, table name, type and comment, the same columns and the same relations touching the table, both as multisets |
| `SchemaHashing.HashUnchangedExactly` | src/metadata_pipeline/domain/hashing.py:15-61 | With a collision-free hash, distinct column names and relations their endpoints determine, a table's hash stays the same if and only if none of these facts changed |
| `SchemaHashing.OrderFreeExactly` | src/metadata_pipeline/domain/hashing.py:40-48 | The order of relations is immaterial to a table's hash if and only if endpoints determine its relations |
| `SchemaHashing.SwappedRelationsChangePayload` | src/metadata_pipeline/domain/hashing.py:40-48 | A schema the parser accepts, with two relations that differ only in their definition: swapping them changes the table's payload |
| `SchemaSummary.SummarizeSchemaChange` | src/metadata_pipeline/application/schema_sync_summary.py:24-54 | The loops over relations and common tables compute the summary the theorems are about |
| `SchemaSummary.SummaryExact` | src/metadata_pipeline/application/schema_sync_summary.py:30-54 | Between parser-valid schemas: a name is in `added` if and only if only the later schema has a table of it, in `deleted` if and only if only the earlier one has, and in `modified` if and only if both have one and it, or the multiset of relations touching it, differs. The lists are sorted without repeats, and there is one review path for each of their names, in name order |
| `SchemaSummary.NoChangesExactly` | src/metadata_pipeline/application/schema_sync_summary.py:30-54 | Between parser-valid schemas there is no change if and only if the table maps are equal and the relations equal as multisets, self-relations included |
| `SchemaSummary.AffectedComposes` | src/metadata_pipeline/application/schema_sync_summary.py:30-54 | Over any chain of schemas, a table affected end to end is affected by some step |
| `SchemaSummary.UnlistedKeepsHash` | src/metadata_pipeline/application/schema_sync_summary.py:36-44 | A table in both schemas that the summary does not list as modified keeps its schema hash, if endpoints determine its relations |
| `Generators.GeneratedColumns` | src/metadata_pipeline/adapters/generator/deterministic.py:30-101 | The columns are published in strict name order, each merged with the review of its name, none missing and none twice; eligibility and hash agree with the review and the schema |
| `Generators.FindTechnicalFirst` | src/metadata_pipeline/adapters/generator/deterministic.py:140-152 | The technical relation used is the first declared one with the reviewed endpoints, and none is used if none matches |
| `DocumentFacts.BaselineSays` | src/metadata_pipeline/adapters/generator/deterministic.py:30-137 | The deterministic document says what the schema declares and the reviewer wrote, field by field: identity, people, versions, paths and commit, every business field in its own place, each column, each relationship with the definition and virtual flag of the first declared relation with its endpoints, each rule, quality and security; its summary is the description and the grain |
| `DocumentFacts.GeneratesExactly` | src/metadata_pipeline/adapters/generator/deterministic.py:109-121 | Generation succeeds if and only if names, schema hash and columns of the review fit the table and the record is valid |
| `DocumentFacts.LockExactly` | src/metadata_pipeline/validation/published.py:14-80 | The fact lock accepts exactly the documents that keep every fact of schema and review and every text of the reviewer, but for the summary and the generator's name and, in an approved live document, the narrative, of which one name has one. In particular appropriate and inappropriate use cannot change places |
| `DocumentFacts.LiveSays` | src/metadata_pipeline/adapters/generator/openai_compatible.py:153-360 | A live document keeps every fact, names its model and prompt, takes each text from its own place in the answer (only the summary while the review is open), and mentions no workflow state in any rewritten text |
| `DocumentFacts.LiveSucceedsExactly` | src/metadata_pipeline/adapters/generator/openai_compatible.py:153-360 | Live generation succeeds if and only if the review fits, model and prompt are named, and the answer has the state's shape, mentions no workflow state, keeps lengths and keys, and makes a valid record |
| `Dumps.DocumentInjective` | src/metadata_pipeline/validation/published.py:76-79 | Two documents with equal dumps are equal |
| `Dumps.PayloadExact` | src/metadata_pipeline/application/candidate_state.py:167-174 | The dump without status, eligibility and source commit tells exactly documents with another content apart |
| `PublishedValidation.CompareValues` | src/metadata_pipeline/validation/published.py:83-127 | Recursing while appending to one shared list reports the issues the theorems are about, in order |
| `PublishedValidation.CompareExact` | src/metadata_pipeline/validation/published.py:83-127 | Nothing is reported if and only if the two trees are equal |
| `PublishedValidation.CompareSound` | src/metadata_pipeline/validation/published.py:83-127 | Every reported path leads to a place where the trees differ |
| `PublishedValidation.ValidatePublished` | src/metadata_pipeline/validation/published.py:14-80 | Reports a context error, or the differences from the baseline updated with the permitted fields |
| `PublishedValidation.AcceptsExactly` | src/metadata_pipeline/validation/published.py:25-80 | Accepts exactly the documents equal to the deterministic baseline outside the permitted narrative fields: summary and generator name, and for live approved documents also the table narrative, column descriptions, relationship meanings and rule descriptions, one text per name |
| `PublishedValidation.BaselineAccepted` | src/metadata_pipeline/validation/published.py:21-80 | The deterministic document itself is accepted |
| `PublishedValidation.LiveAccepted` | src/metadata_pipeline/adapters/generator/openai_compatible.py:153-360 | Every document the live generator returns, for any answer passing its length and key checks, is accepted |
| `GitParsers.ParseNameStatusZ` | src/metadata_pipeline/adapters/git/changed_paths.py:53-72 | One pass over the tokens, whose remaining number falls, computes the parse the theorems are about |
| `GitParsers.ParseInvertsEncode` | src/metadata_pipeline/adapters/git/changed_paths.py:53-72 | Parsing what Git writes for entries with non-empty NUL-free fields returns the entries |
| `GitParsers.EncodeInvertsParse` | src/metadata_pipeline/adapters/git/changed_paths.py:53-72 | A payload that parses re-encodes to itself up to trailing NULs |
| `GitParsers.ParsesExactly` | src/metadata_pipeline/adapters/git/changed_paths.py:53-72 | Parsing succeeds if and only if the tokens are whole entries end to end |
| `GitParsers.TruncationErrors` | src/metadata_pipeline/adapters/git/changed_paths.py:58-69 | Cutting the last entry short always gives an error |
| `GitParsers.ParsePorcelainZ` | src/metadata_pipeline/adapters/github/schema_sync_runtime.py:200-217 | The loop computes the parse the theorems are about, as a sorted set |
| `GitParsers.PorcelainRoundTrip` | src/metadata_pipeline/adapters/github/schema_sync_runtime.py:200-217 | Git's porcelain output parses to the sorted set of all new and old paths |
| `GitParsers.PorcelainParsesExactly` | src/metadata_pipeline/adapters/github/schema_sync_runtime.py:200-217 | Parsing succeeds if and only if the tokens are whole status entries end to end |
| `GitParsers.PorcelainTruncationErrors` | src/metadata_pipeline/adapters/github/schema_sync_runtime.py:205-215 | A final rename without its original path is an error |
| `Markdown.RenderPublishedDocument` | src/metadata_pipeline/io/published_markdown.py:14-78 | Appending section by section to one list of parts renders the text the theorems are about |
| `Markdown.EvidenceExact` | src/metadata_pipeline/io/published_markdown.py:207-218 | Every piece of evidence of the document is listed, once, in strict key order, and nothing else |
| `Markdown.RenderedSplits` | src/metadata_pipeline/io/published_markdown.py:36-78 | The text is the header followed by the body: the final strip never reaches into the header |
| `MarkdownFacts.RenderedFromDraft` | src/metadata_pipeline/io/published_markdown.py:36-78 | The text is the header followed by the body whose end alone is stripped |
| `MarkdownFacts.HeaderTells` | src/metadata_pipeline/io/published_markdown.py:16-51 | The header is the front matter, which names each fact of the document's origin in its own field, the title, and the preview warning exactly while the review is open |
| `MarkdownFacts.NarrativeSections` | src/metadata_pipeline/io/published_markdown.py:52-59 | Between each heading and the next stands exactly its own field: summary; grain and purpose; appropriate use; inappropriate use |
| `MarkdownFacts.NoteSections` | src/metadata_pipeline/io/published_markdown.py:64-76 | So do data quality with caveats, and security |
| `MarkdownFacts.ColumnsTold` | src/metadata_pipeline/io/published_markdown.py:101-127 | Under the columns heading every column has a block with each of its fields on its own labelled line |
| `MarkdownFacts.RelationshipsTold` | src/metadata_pipeline/io/published_markdown.py:130-154 | Under their heading every relationship has such a block, with the declared definition if there is one |
| `MarkdownFacts.RulesTold` | src/metadata_pipeline/io/published_markdown.py:157-163 | Under their heading every rule has its block |
| `MarkdownFacts.UnitsTold` | src/metadata_pipeline/io/published_markdown.py:166-194 | Exactly the timed, measured and coded columns have a line about their unit |
| `MarkdownFacts.EvidenceTold` | src/metadata_pipeline/io/published_markdown.py:197-204 | Every piece of evidence has a line with its status, kind, reference and note |
| `Markdown.BodyIndependent` | src/metadata_pipeline/io/published_markdown.py:52-78 | The body does not depend on status, eligibility, provenance or the preview warning |
| `Markdown.ReviewableSplits` | src/metadata_pipeline/application/candidate_state.py:177-186 | The reviewable text always exists; it is the body, preceded by the end of the header from its first marker on, if the header has one |
| `Markdown.SameReviewableExactly` | src/metadata_pipeline/application/candidate_state.py:177-186 | Approving leaves the reviewable text alone if and only if the marker is in neither header |
| `CandidateLifecycle.FingerprintExact` | src/metadata_pipeline/application/candidate_state.py:146-164 | With collision-free hashes a fingerprint binds the review's content, both files, the model and the prompt, and not the review's status |
| `CandidateLifecycle.CandidateHashExact` | src/metadata_pipeline/application/candidate_state.py:167-174 | A candidate hash binds the document up to status, eligibility and source commit |
| `CandidateLifecycle.CreatedValidates` | src/metadata_pipeline/application/candidate_state.py:26-58 | A fresh candidate is valid, intact and in review, and validates against its review if and only if the document is about the review's table |
| `CurrentCandidates.ValidationExactly` | src/metadata_pipeline/application/candidate_state.py:61-96 | Any candidate, however it came to be, validates if and only if it names the review's table, both files are there, each component of its fingerprint is the review's, a file's or the document's generator's, and its document is the frozen one; it is stale if and only if only a component differs |
| `CandidateLifecycle.ValidatesExactly` | src/metadata_pipeline/application/candidate_state.py:61-84 | A candidate made from one review validates against another if and only if that has the same content up to status and the same contract and guideline, and names the table |
| `CandidateLifecycle.TamperingDetected` | src/metadata_pipeline/application/candidate_state.py:87-96 | Replacing the document of an intact candidate is noticed unless narrative and reviewable text stay the same |
| `CandidateLifecycle.PromotesExactly` | src/metadata_pipeline/application/candidate_state.py:99-143 | Promotion of a valid unchanged candidate succeeds if and only if the commit is well formed and the marker is in neither header; with a good commit the only other outcome is the refusal to change the narrative |
| `CandidateLifecycle.PromotedUnchanged` | src/metadata_pipeline/application/candidate_state.py:124-143 | A promotion changes only state, status, eligibility and commit, keeps the reviewable text, and its result again passes validation against the approved review |
| `CandidateLifecycle.TitledMarkerRefused` | src/metadata_pipeline/application/candidate_state.py:181 | A display name that starts with the marker blocks every promotion of the candidate |
| `CandidateSync.ValidateReviewDirectory` | src/metadata_pipeline/application/review_contract.py:34-101 | Accepts exactly the directories without a blocking issue: all files readable, one review per table, no error and no conflicting evidence, and no raw table without review |
| `CandidateSync.PrepareCandidateSync` | src/metadata_pipeline/application/sync_candidates.py:77-201 | Succeeds if and only if preflight, selection, every decision and every needed generation do, and returns one planned item per selected review in table order. Each factory is called at most once; a successful run calls the identity's exactly if some selected table needs it, the generator's exactly if some table is generated, and neither if all selected reviews are approved |
| `CurrentCandidates.SyncLeavesCurrent` | src/metadata_pipeline/application/sync_candidates.py:105-218 | After a completed sync every selected review's stored candidate is current: it holds for the review and both files as they are, is promoted if and only if the review is approved, and in an open review is of the configured model and prompt |
| `CurrentCandidates.LeftAloneExactly` | src/metadata_pipeline/application/sync_candidates.py:119-172 | A completed sync leaves a stored candidate alone if and only if it was current; a stale one, one of another generator and one in the wrong state are replaced |
| `CurrentCandidates.ActionsTell` | src/metadata_pipeline/application/sync_candidates.py:119-199 | A table is reported as validated if and only if its stored candidate is current, and is then planned with that candidate; promotions are of approved reviews, generations of open ones |
| `CurrentCandidates.SyncSucceedsExactly` | src/metadata_pipeline/application/sync_candidates.py:77-201 | A sync succeeds if and only if the preflight is clean, every selected table has a review, every selected approved review has a holding candidate that is promoted or can be, and every selected open one has no damaged candidate and a current one or one that can be generated |
| `CurrentCandidates.NoGeneratorFails` | src/metadata_pipeline/application/sync_candidates.py:172-178 | Without a generator a sync fails as soon as a selected open review has no current candidate |
| `CurrentCandidates.AsksExactly` | src/metadata_pipeline/application/sync_candidates.py:147-152 | A table needs the configured identity if and only if one is configured, its review is open, and its candidate is current but for the identity |
| `CurrentCandidates.UnaskedSame` | src/metadata_pipeline/application/sync_candidates.py:147-152 | A decision that did not need the identity is the same whatever identity is configured |
| `CurrentCandidates.GeneratedSays` | src/metadata_pipeline/application/sync_candidates.py:179-199 | A generated candidate's document is the generator's for this run's schema, paths, review and commit, and says their facts |
| `CurrentCandidates.NamedIdentityOwn` | src/metadata_pipeline/application/sync_candidates.py:147-158 | A generator that names the configured identity makes only candidates of that identity |
| `PreflightFacts.UnblockedExactly` | src/metadata_pipeline/validation/review.py:38-148 | A review blocks nothing if and only if it is of the contract's versions and the schema's database, describes its table's columns and current hash, its relationships resolve at both ends, and no piece of its evidence conflicts |
| `PreflightFacts.WarnsExactly` | src/metadata_pipeline/validation/review.py:160-228 | Each of the four warnings is given for exactly the reviewed columns of the table it is about, by data type, semantic type, unit, allowed values, caveats and sensitivity |
| `PreflightFacts.CleanExactly` | src/metadata_pipeline/application/review_contract.py:34-101 | The preflight is clean if and only if all files are readable, tables are reviewed once each and none is missing, and no review blocks |
| `PreflightFacts.CleanFits` | src/metadata_pipeline/application/publish_metadata.py:145-182 | After a clean preflight no generation stops because a review does not fit its table |
| `CandidatePlanning.PlanSync` | src/metadata_pipeline/application/sync_candidates.py:105-201 | For any deciding and generating functions: planning succeeds if and only if every selected file has an item, and then yields one item per file in table order; the identity and the generator are asked for at most once and only if needed |
| `CandidatePlanning.GenerateAll` | src/metadata_pipeline/application/sync_candidates.py:160-199 | Publishes for every pending table before any candidate is frozen, and succeeds exactly when each table's generation does |
| `CandidateSync.CleanKnown` | src/metadata_pipeline/application/publish_metadata.py:145-149 | After a clean preflight every review's table is in the schema, so building its publication context cannot fail |
| `CandidateRuns.SettledOnce` | src/metadata_pipeline/application/sync_candidates.py:113-158 | Once an item's candidate is stored, the next run with the same identity keeps it, whatever its commit and generator |
| `CandidateSync.AcceptedIdentity` | src/metadata_pipeline/application/publish_metadata.py:161-182 | A document that passes the fact lock is about the review's table, in its status and contract version |
| `CandidatePlanning.PlanTables` | src/metadata_pipeline/application/sync_candidates.py:113-201 | No run plans two items for one table, so none both generates and promotes it |
| `CandidateRuns.CandidateFiles.WriteCandidateSync` | src/metadata_pipeline/application/sync_candidates.py:204-218 | Writing item by item leaves the planned files; results name the actions, and all-unchanged results mean no file changed |
| `CandidateRuns.CandidateFiles.Synchronize` | src/metadata_pipeline/application/sync_candidates.py:77-218 | Succeeds exactly when planning does; an error changes no file; success leaves exactly the planned files |
| `CandidateRuns.MarkdownRestored` | src/metadata_pipeline/application/sync_candidates.py:204-218 | After a completed sync from any catalog, also one an interrupted run left, the Markdown of every selected table is the rendering of its stored candidate |
| `CandidateRuns.RerunSucceeds` | src/metadata_pipeline/application/sync_candidates.py:105-201 | A rerun after a crash between any two writes, whose generator answers as before, can be planned |
| `CandidateRuns.CrashRecovers` | src/metadata_pipeline/application/sync_candidates.py:204-218 | A rerun after a crash between any two writes, whose generator answers as before, ends in exactly the files of an uninterrupted run |
| `CandidateRuns.LaterRunSucceedsExactly` | src/metadata_pipeline/application/sync_candidates.py:105-201 | A rerun after such a crash, with whatever commit and generator, can be planned if and only if the tables whose candidate was not written yet can be planned by it from the original catalog |
| `CandidateRuns.CrashRecoversWith` | src/metadata_pipeline/application/sync_candidates.py:113-218 | Such a rerun keeps every candidate that was written, stores its own plan for each other selected table, leaves all their Markdown as the rendering of the stored candidate, and touches no other table |
| `CandidateRuns.SecondRunSucceeds` | src/metadata_pipeline/application/sync_candidates.py:105-201 | After a completed sync a second run with the same selection and identity, with any commit and generator, can be planned |
| `CandidateRuns.SecondRunValidates` | src/metadata_pipeline/application/sync_candidates.py:113-201 | When generated candidates carry the configured identity, a second run with the same selection and identity, whatever its commit and generator, finds every table validated and changes no file |
| `CandidateRuns.StoredExplained` | src/metadata_pipeline/application/sync_candidates.py:105-199 | In every history of edits and interrupted syncs, a stored candidate was created from a review or promoted from a stored candidate earlier on |
| `CandidateRuns.PromotedWasReviewed` | src/metadata_pipeline/application/sync_candidates.py:105-199 | A promoted candidate stored at any time was stored before in review state with the same reviewable text, and that one was created earlier still from a review with the approving one's content up to status, from the same contract and guideline bytes, and passed the fact lock |
| `ReviewValidation.ValidateReviewDocument` | src/metadata_pipeline/validation/review.py:38-148 | Reports every finding that holds, once, and no other |
| `ReviewValidation.CheckColumns` | src/metadata_pipeline/validation/review.py:160-228 | In whatever order reviewed columns come, exactly their warnings and evidence conflicts are reported, for columns the table has |
| `Drafts.ReviewDirectory.LoadExistingReviews` | src/metadata_pipeline/application/create_drafts.py:94-110 | Succeeds exactly when every review file is readable and no two declare one table, and then indexes exactly the reviews |
| `Drafts.ReviewDirectory.CreateReviewDrafts` | src/metadata_pipeline/application/create_drafts.py:53-91 | Succeeds exactly when the files load and every written review is valid, and then leaves the files and results the theorems are about. Files that do not load are left alone; a run that stops at an invalid record has done exactly the tables before the first invalid one; a run with nothing due performs no write |
| `DraftTheorems.ReadsBack` | src/metadata_pipeline/application/create_drafts.py:53-91 | After a successful run that takes no other review's file the directory loads, with one review for every raw table and every other review as it was |
| `DraftTheorems.CoversAndKeepsExactly` | src/metadata_pipeline/application/create_drafts.py:65-91 | A successful run gives every raw table a review and keeps every review with its human fields and column entries if and only if no new draft's file name is taken or leads out of the directory |
| `DraftTheorems.TakenNameLoses` | src/metadata_pipeline/application/create_drafts.py:72 | A file `orders.yml` that reviews `customers` makes a run over a new table `orders` lose one of the two reviews |
| `DraftTheorems.RefreshKeeps` | src/metadata_pipeline/application/create_drafts.py:156-196 | A refresh changes versions, status and hash, adds columns, and keeps everything else |
| `DraftTheorems.WrittenNeedsReview` | src/metadata_pipeline/application/create_drafts.py:113-196 | Whatever a run writes needs review; an approval that remains was there before, unchanged; a new draft reviews exactly the table's columns |
| `DraftTheorems.AgreesWithValidator` | src/metadata_pipeline/application/create_drafts.py:156-204 | After a run the validator reports no version, stale-hash, missing-column or unknown-table error for a raw table, and its unknown columns are exactly the orphan codes reported |
| `DraftFacts.NewDraftSays` | src/metadata_pipeline/application/create_drafts.py:113-153 | A new draft is of the contract's versions, the schema's database and the table, unassigned and open, with the table's current hash, and each column filled from its own definition |
| `DraftFacts.ErrorsAfter` | src/metadata_pipeline/application/create_drafts.py:113-196 | After a run the validator finds no error in a new draft, and in an open review exactly those a refresh cannot mend: a foreign database, orphaned columns and unresolved relationships |
| `DraftFacts.ResultTells` | src/metadata_pipeline/application/create_drafts.py:65-91 | A table is reported as created if and only if it had no review, for manual review if and only if its review has an orphaned column, and otherwise as refreshed or unchanged according to whether its review changed |
| `DraftFacts.StaleExactly` | src/metadata_pipeline/validation/review.py:284-300 | A review made on one schema is reported stale on another if and only if the table's database, definition, columns or touching relations changed in between |
| `DraftTheorems.SecondRunQuiet` | src/metadata_pipeline/application/create_drafts.py:53-91 | After a successful run that takes no other review's file, a second run on the same sources succeeds, has nothing due and so performs no write, and reports no table as created or refreshed |
| `ScheduledSync.ListChangedPaths` | src/metadata_pipeline/application/scheduled_schema_sync.py:275-289 | The two loops list exactly the files that differ between staged and committed directory, sorted and once |
| `ScheduledSync.Directory.SyncDirectory` | src/metadata_pipeline/application/scheduled_schema_sync.py:292-300 | File by file, the directory ends as a mirror of the source, or, when orphans are kept, as the old files overwritten by the source's. A failing write leaves each file as it was or as it should be, and no orphan goes before all the source's files are in |
| `ScheduledSync.CatalogTree.Synchronize` | src/metadata_pipeline/application/scheduled_schema_sync.py:65-152 | A failure before publication leaves every database alone and occurs exactly when the preflight fails. A failing write leaves the databases before some changed one published, that one partly, raw files before reviews, and those after it alone. Otherwise exactly the changed databases are published, and the report is returned if its validators accept it |
| `InterruptedSync.InterruptedRunRecoversExactly` | src/metadata_pipeline/application/scheduled_schema_sync.py:119-132 | After a publication cut off anywhere, a rerun on the same snapshots and contract ends in the catalog of the uninterrupted run if and only if the schema file of the database being published had not been replaced yet, or that database was complete; otherwise the rerun leaves that database as it is |
| `InterruptedSync.InterruptedDatabase` | src/metadata_pipeline/application/scheduled_schema_sync.py:155-222 | The same for the one database that was cut, whose rerun then finds no drift once the schema file is the new one |
| `InterruptedSync.InterruptedRunPrepares` | src/metadata_pipeline/application/scheduled_schema_sync.py:89-106 | The rerun after any such cut passes its preflight |
| `ShopRuns.CutRunLosesReviews` | src/metadata_pipeline/application/scheduled_schema_sync.py:119-132 | A concrete run: the first sync of a database cut off between raw files and reviews, after which the rerun reports a no-op and a declared table has no review |
| `SyncTheorems.CatalogAfter` | src/metadata_pipeline/application/scheduled_schema_sync.py:119-132 | A changed database ends with the staged raw directory, the refreshed reviews and only allowlisted tables; an unchanged one is as it was |
| `SyncFacts.ReportTells` | src/metadata_pipeline/application/scheduled_schema_sync.py:242-251 | The record of one database lists exactly the tables added, deleted and modified between its committed and its new schema, one review path for each, and, if there are any, exactly the raw files that differ |
| `SyncFacts.WarningsExactly` | src/metadata_pipeline/application/scheduled_schema_sync.py:105-112 | A run warns of exactly the databases whose raw bytes changed without a change of schema |
| `SyncFacts.OutcomeTells` | src/metadata_pipeline/application/scheduled_schema_sync.py:113-150 | The outcome is a no-op if and only if no schema changed, and a manual cleanup if and only if something is listed for it |
| `SyncFacts.SourceTells` | src/metadata_pipeline/application/scheduled_schema_sync.py:205-214 | Drafts are made of the staged schema and refer to the file it is published to |
| `SyncFacts.CleanupTold` | src/metadata_pipeline/application/scheduled_schema_sync.py:134-142 | The cleanup list holds exactly one text for each orphaned column or table of the changed databases' reviews |
| `SyncFacts.SafeRunIdStays` | src/metadata_pipeline/application/scheduled_schema_sync.py:260-263 | A safe run id is one path segment: not empty, without separators, and no name of a directory above |
| `SyncTheorems.ReviewsCoveredExactly` | src/metadata_pipeline/application/scheduled_schema_sync.py:196-222 | In a changed database every table of the new schema ends with a review and every review keeps its human content if and only if no new draft's file name was taken |
| `SyncTheorems.OthersUnpublished` | src/metadata_pipeline/application/scheduled_schema_sync.py:122-132 | A database without a profile is as it was |
| `SyncTheorems.RerunPrepares` | src/metadata_pipeline/application/scheduled_schema_sync.py:89-106 | A rerun on the same snapshots passes the preflight whatever its contract |
| `SyncTheorems.RerunIsNoop` | src/metadata_pipeline/application/scheduled_schema_sync.py:89-118 | A rerun on the same snapshots finds no change, publishes nothing and reports a no-op |
| `SyncTheorems.ReportAcceptedExactly` | src/metadata_pipeline/application/scheduled_schema_sync.py:134-152 | A run's report is accepted if and only if in every database no affected table name overtakes another in path order, and in every changed database no listed table name continues another with the entry of one of its orphaned columns |
| `SyncTheorems.CleanupExact` | src/metadata_pipeline/application/scheduled_schema_sync.py:134-142 | Over a whole run the cleanup texts of all databases are distinct if and only if in no changed database a listed table name continues another one with the entry of one of its orphaned columns |
| `CleanupEntries.ClashExactly` | src/metadata_pipeline/application/scheduled_schema_sync.py:137-142 | Two entries of different tables read the same if and only if one table name continues the other with the code of an orphaned column, and that column ends in the rest of the other entry |
| `CleanupEntries.RunTextsExact` | src/metadata_pipeline/application/scheduled_schema_sync.py:137-142 | The cleanup texts of one draft run are distinct if and only if the reviewed and declared names it starts from keep them apart |
| `SyncTheorems.WordReportsAccepted` | src/metadata_pipeline/application/scheduled_schema_sync.py:134-152 | When declared and reviewed tables have names over `[A-Za-z0-9_]`, every report a run builds passes every validator |
| `SyncReports.SortedUniqueExact` | src/metadata_pipeline/domain/schema_sync.py:38-51 | The comparison with the sorted set accepts exactly the strictly sorted lists |
| `SyncReports.ReportValidExactly` | src/metadata_pipeline/domain/schema_sync.py:22-81 | The report validators accept exactly named runs with one record for each database in key order, every list sorted without repeats, drift if and only if the outcome says so, and a cleanup if the outcome asks for one |
| `SyncReports.SuffixOrder` | src/metadata_pipeline/application/schema_sync_summary.py:51-53 | Appending one suffix keeps the order of two strings if and only if the larger does not extend the smaller by text that sorts ahead of the bare suffix |
| `SyncReports.ReviewFilesExact` | src/metadata_pipeline/application/schema_sync_summary.py:51-53 | Review paths in table order are in path order if and only if no table name overtakes another |
| `SyncReports.HyphenOvertakes` | src/metadata_pipeline/application/schema_sync_summary.py:51-53 | The tables `a` and `a-b`: their review paths in table order are not in path order |
| `ShopRuns.HyphenRunRefused` | src/metadata_pipeline/application/scheduled_schema_sync.py:119-152 | A concrete run, whatever fills its drafts: the first sync of a database with the tables `a` and `a-b` passes the preflight and publishes the staged schema, and the report it builds then fails its validators |
| `SyncReports.DatabaseReportExact` | src/metadata_pipeline/domain/schema_sync.py:38-51 | One database's drift record is accepted if and only if no affected table name overtakes another |
| `CumulativeReports.BuildCumulativeReport` | src/metadata_pipeline/application/schema_sync_pr.py:65-106 | The loop builds the cumulative report, refuses one without changes, and submits the rest to the validators |
| `SyncFacts.CumulativeTells` | src/metadata_pipeline/application/schema_sync_pr.py:65-106 | Each record lists exactly the tables added, deleted and modified from the main branch to the working tree, and exactly the changed raw paths of its own database; run, warnings and cleanup are the latest ones |
| `CumulativeReports.CumulativeAcceptedExactly` | src/metadata_pipeline/application/schema_sync_pr.py:73-106 | Built from a valid report and not refused for lack of changes, it is accepted if and only if in every database no affected table name overtakes another |

## Left out

- PublishedValidation.ValidatePublished: a record error raised while the baseline is rebuilt is modelled as the same issue as a context error, because both stop the publication.
- ApplyIndex.Apply: counts and legal cuts only; the collection's own creation and distance settings are not part of this model.
- CandidateSync.PrepareCandidateSync: which error comes first among several is stated only as far as success or failure goes, since any error ends the run without a write.
- JSON, YAML and Pydantic plumbing, settings, command line and atomic temporary files: a file changes in one step.
- Stripping of white space around names and texts when a record is built, except for chunk content, where it matters.
- The 64-digit pattern of digests that the code itself computes, which SHA-256 always meets.
- Path resolution, symbolic links and the location check of the staging directory.
- The text of issues, warnings and errors beyond their codes and fields; field paths are sequences of steps instead of dotted strings.
- The draft heuristics for semantic type, unit and display name, which are single-branch facts.
- Telegram delivery, notification events, candidate summaries and pull-request bodies: formatting.
- Retrieval search, lexical ranking and golden-question evaluation: library tokenising.
- Change classification and index action mapping from paths: counting and pattern matching.
- Floating-point normalisation of vectors: an abstract function of the vector.
- Git, GitHub, Docker and network calls beyond the two NUL-delimited parsers.
- Markdown publication to a directory with pruning of orphans, and the check of committed Markdown: the same write loop as the candidate sync.
