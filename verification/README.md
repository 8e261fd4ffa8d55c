# Verified model of the columbus index, memory, graph and search core

Columbus keeps a SQLite index of a repository: files, symbols, an import graph, a full-text index and a semantic layer of
embedding vectors, next to a durable store of project memories. A run re-reads only what changed, deletes what vanished,
recomputes the graph, and carries unchanged vectors over row deletion and reinsertion although row ids are reused. This
project models that machinery and proves what it promises: an incremental run is the full rebuild, up to row ids, exactly
under a stated condition; the vector cache never confuses texts, in any history of runs and memory operations; owners stay
exact; the worker pool computes the sequential scan; a new memory never gets a number used before; import is idempotent
exactly when records repeat nothing; export and restore round-trip; the projected graph is self-consistent, and determined by
its input exactly when no file is named like a package; search output does not depend on map order.

`dafny verify dfyconfig.toml` checks everything.

## How it is laid out

| modules | what they model |
|---|---|
| `Base`, `Ids`, `Lists`, `Sorting`, `Text`, `StringOrder`, `RowTables`, `TagOrder` | options and row ids, lists without repetitions, sorting with a comparison, strings, child tables read ORDER BY id |
| `Digests`, `FloatCodec`, `VectorStore` | digests, the float blob codec, and chunk_meta with vec_chunks as one refined map |
| `CodeTables`, `CodeView`, `CodeStore` | files, symbols, derived rows, full-text rows, and the path-keyed view of them |
| `Extraction`, `Packages`, `Scanning`, `Scan`, `Indexing` | symbol deduplication, nearest manifests, one candidate, the worker pool, the metadata transaction |
| `SymbolTheorems`, `PackageTheorems` | which matches are kept, over names; which manifest names a package, over path segments |
| `SlashPath`, `PathSegments`, `Resolve`, `GraphRefresh`, `ResolveTheorems` | paths and their segments, import resolution, the graph transaction, and where imports and test files lead |
| `MetadataTheorems`, `SelectionTheorems`, `RunExamples` | incremental against full, histories, dry runs, fixpoints; which files a run indexes, what it writes and counts; histories on which incremental and full differ |
| `Embedder`, `EmbedSpec`, `Embedding`, `Running` | the embed phase and whole runs |
| `ChunkTexts`, `MeanTheorems` | what the embedded texts hold, and the file vector over the reals |
| `VectorTheorems`, `RunVectors`, `CarryTheorems`, `EditTheorems`, `OwnerTheorems` | what runs leave in the semantic layer: right values, entry by entry, what is sent and what is kept, line by line, owners |
| `Decimal`, `MemoryText`, `MemoryTables`, `MemoryRecords`, `MemoryOps`, `MemoryStore` | ids and notations, tables, content hashes, operations, the store |
| `MemoryEdits`, `ImportTheorems`, `ImportedRecords`, `MemoryHistory` | what adds, edits and exports mean for the memories read, import, restore, and whole histories of the memory layer |
| `SystemHistory` | whole histories of the store: runs, cleans and memory operations together |
| `ExternalPackages`, `GraphProjection`, `GraphTheorems`, `GraphReads`, `ShownGraph` | `show graph`, what it promises, the rows it reads, and what it shows |
| `Ranking`, `Search`, `SearchTheorems` | scores and ranked hits, and what an answer says about distances, names and roles |

Each operation that changes state is a method of a class over the tables, or a method that updates such an object, and is
proved equal to a function on the tables' values; the theorems are about those functions.

## Modelling decisions

- A table is a map from row id to row. A new row id is one more than the largest live one, as SQLite gives it to an
  INTEGER PRIMARY KEY without AUTOINCREMENT. The imports, exports and todos of a file are kept as one ordered group.
- Hashes are symbolic: a digest holds what it was computed from, so equal digests mean equal inputs, and blob ids never equal
  SHA-256 digests. Nothing is assumed about the order of digests.
- A transaction either commits its specified state or restores the state before it. Every vector write is its own
  transaction; the layer's state after each of them is recorded, and the cache invariant is proved of all of them.
- The file tree, the extractors, the candidate list (distinct paths), git state, the clock, evidence blob ids and the embedder
  are parameters. The embedder maps (model, text) to a vector, text by text, and may reject a batch. The package of a path is
  a parameter of a scan, and the pool theorem discharges it against the memoised manifest walk.
- Strings are sequences of characters: code points in names, titles and queries, bytes in file contents. Lower-casing maps the
  letters whose lower case is ASCII, which is all that its comparisons with ASCII text can see.
- Float arithmetic of the mean is a record of uninterpreted operations, applied in the order the loops apply them; `MeanIsUnit`
  reads them as numbers, under the IEEE demand that a representable result is exact. Scores are real numbers.
- The stored entries of a file's symbols are read in id order, which shows only if two symbols share name, container and
  signature.
- A Go map that is ranged over is a set from which keys are taken in any order; sort.Slice returns some sorted arrangement.

## Where the code says less than its comments

- A path that is indexed but now binary, oversized or unreadable keeps its old rows (internal/index/index.go:305-312), and a
  file's package can change without its content changing. `IncrementalRefinesFull` therefore has exactly these two as its
  condition, and `BinaryStays` and `PackageStays` are histories on which the views differ.
- A full run does not delete vectors of ids that no longer exist, and a run without an embedder changes no vector
  (internal/index/index.go:135-157). `FullRunCovers` claims owners for the live rows only; `FullRunOwnersExactly` says when
  there are no others, and `FullRunOverNothing` gives a tree on which there are.
- imports.resolved_file_id is never set, so the reader of unresolved imports returns every import
  (internal/store/graph_repo.go:103-121). The projection takes that reader's rows as input.
- A record that repeats a tag or a link is stored without the repetition, so the next import does not recognise it
  (internal/memory/export.go:140-157).
- Memory ids are not simply "never reused" (internal/store/memory_write_repo.go:5-6): the counter never hands one out twice, but an
  id-preserving import brings a removed id back. `ReuseExactly` says when, and `RemovedIdComesBack` is a history in which it happens.
- A chunk text does not name its parts: a symbol without a signature can share its text with one that has the first line of its
  body as signature (internal/index/embed.go:326-342). `TextDetermines` says for which symbols it does name them, and
  `SignatureLikeBody` gives two that share one.
- The "weak match" explanation cannot occur, because every role has a positive weight (internal/search/rank.go:71-73).
- The graph's degree sums can be wrong, and its node order undetermined, because a file may be named like an external package
  (internal/show/graph.go:93-96). `DegreesBalance` and `ProjectionUnique` have exactly this as their condition on the input,
  `OrdinaryPaths` says which inputs cannot meet it, and `ClashingDegrees` gives one that does.

## Model

| member | source | states |
|---|---|---|
| `Ids.NextId` | internal/store/migrations/0001_init.sql:20-33 | the next row id is one more than the largest live id, or 1: it is free, and a freed top id comes back |
| `CodeTables.PutFileConsistent` | internal/store/index_repo.go:80-133 | replacing a file keeps every foreign key live and exactly one full-text row per file and per symbol |
| `CodeTables.DeleteConsistent` | internal/store/index_repo.go:67-75 | so does deleting a path with its cascades |
| `CodeView.PutFileView` | internal/store/index_repo.go:80-133 | by path, a replaced file has exactly the given record, symbols in order, imports, exports and todos, and no other path changes |
| `CodeView.DeleteView` | internal/store/index_repo.go:67-75 | by path, a delete removes that entry and changes no other |
| `CodeView.AddSymbolsReadBack` | internal/store/vec_repo.go:202-219 | the i-th symbol id read back for a file is the row of the i-th inserted symbol |
| `CodeStore.CodeDb.PutFile` | internal/store/index_repo.go:80-133 | the insert is refused exactly when two symbols share name, kind and container; otherwise the new tables are given in full |
| `CodeStore.CodeDb.DeleteFileByPath` | internal/store/index_repo.go:67-75 | the whole new state of the tables |
| `CodeStore.CodeDb.ClearIndex` | internal/store/index_repo.go:52-63 | the whole new state of the tables |
| `CodeStore.CodeDb.SetIndexState` | internal/store/index_repo.go:142-150 | only the index_meta row changes, to these values |
| `CodeStore.CodeDb.FileHashes` | internal/store/index_repo.go:31-47 | the map from each indexed path to its blob id, or to its SHA-256 when it has none |
| `CodeStore.CodeDb.ReplaceGraph` | internal/store/graph_repo.go:124-141 | the stored edges and links become exactly the given ones, duplicates ignored |
| `FloatCodec.DecodeEncode` | internal/store/vec_repo.go:242-256 | the little-endian float32 blob codec round-trips on every vector |
| `FloatCodec.SerializeFloat32` | internal/store/vec_repo.go:250-256 | the byte loop writes the specified encoding |
| `FloatCodec.DeserializeFloat32` | internal/store/vec_repo.go:242-248 | the word loop reads the specified decoding and ignores a trailing part word |
| `FloatCodec.EncodeBytes` | internal/store/vec_repo.go:250-256 | each component is the little-endian value of its four bytes |
| `Digests.ChunkShaInjective` | internal/index/embed.go:391-394 | under one model name, equal chunk digests mean equal texts |
| `MeanTheorems.VecShaInjective` | internal/index/embed.go:398-407 | equal digests of file vectors of one dimension mean equal models and vectors |
| `VectorStore.PutRefines` | internal/store/vec_repo.go:31-71 | writing one key to both tables keeps equal row-id sets and unique keys, and means one map update |
| `VectorStore.DropRefines` | internal/store/vec_repo.go:138-163 | deleting owners from both tables keeps them in step and removes exactly those owners under every model |
| `VectorStore.VecTables.UpsertVector` | internal/store/vec_repo.go:31-71 | the pair of tables still refines one map, which gains exactly this entry; the fresh row id never collides in the second table |
| `VectorStore.VecTables.DeleteVectors` | internal/store/vec_repo.go:138-163 | the refined map loses exactly the given owners |
| `VectorStore.VecTables.ClearVectors` | internal/store/vec_repo.go:224-233 | the refined map becomes empty |
| `VectorStore.VecTables.ChunkShaOf` | internal/store/vec_repo.go:121-133 | the digest returned is that of the refined map |
| `VectorStore.VecTables.Chunk` | internal/store/vec_repo.go:179-200 | digest and decoded vector returned are those of the refined map |
| `Extraction.DedupeCorrect` | internal/extract/extractor.go:134-172 | one symbol per (container, name), the earliest of maximal kind priority, sorted by (line, name) |
| `Extraction.WinnersDetermined` | internal/extract/extractor.go:134-172 | that description determines the result up to order: no other set of winners satisfies it |
| `Extraction.DedupeSymbols` | internal/extract/extractor.go:151-172 | the in-place loop with its index map, then the sort, computes it |
| `SymbolTheorems.KeptOnce` | internal/extract/extractor.go:134-172 | over NUL-free containers and names: each pair of the matches is kept exactly once, by the first of its most specific matches |
| `SymbolTheorems.KindOrder` | internal/extract/extractor.go:134-148 | class, interface and enum outrank method and function, these heading, then type, const, var and all other kinds |
| `SymbolTheorems.KeptInOrder` | internal/extract/extractor.go:151-172 | what is kept are matches, by line and then by name |
| `StringOrder.StringLeqIs` | internal/extract/extractor.go:151-172 | names, paths and tags are compared lexicographically: a prefix first, else the smaller character at the first difference |
| `Packages.DirShrinks` | internal/index/meta.go:81-101 | going to the parent directory gets shorter until it stays put, so the walk ends |
| `Packages.PackageResolver.ForDir` | internal/index/meta.go:81-101 | with any cache, the recursion with its early return computes the specified memo update and answer |
| `Packages.PackageResolver.PkgFor` | internal/index/meta.go:73-78 | a file gets the answer for its directory, and the cache that lookup leaves |
| `Packages.LookupIsNearest` | internal/index/meta.go:81-101 | from a cache that agrees with the uncached walk, a lookup answers the nearest manifest directory, and the cache still agrees and keeps what it had |
| `PackageTheorems.PackageIs` | internal/index/meta.go:73-101 | by segments: the package is the name of the nearest directory, from the file's own up to and including the work directory, that holds go.mod, package.json or pyproject.toml, and empty when there is none |
| `SlashPath.CleanIdempotent` | internal/index/resolve.go:86-103 | path cleaning is idempotent |
| `PathSegments.CleanSegments` | internal/index/resolve.go:86-103 | cleaning a relative path reduces its segments |
| `PathSegments.DirSegments` | internal/index/resolve.go:86-103 | the directory of d/f is d |
| `PathSegments.JoinSegments` | internal/index/resolve.go:86-103 | joining reduces the segments together |
| `PathSegments.ReduceSteps` | internal/index/resolve.go:86-103 | a dot segment goes nowhere, a dot-dot to the parent, a name down |
| `Scan.StepInv` | internal/index/index.go:196-221 | every step of every interleaving of sender and workers keeps: each sent index is with one worker or in its slot, each filled slot is right, and the shared cache, which lookups update as the resolver does, agrees with the walk |
| `Scan.NoDeadlock` | internal/index/index.go:196-221 | while a worker has not left, some step is possible |
| `Scan.StepDecreases` | internal/index/index.go:196-221 | every step lowers a measure |
| `Scan.PoolComputesScan` | internal/index/index.go:196-221 | every execution is bounded, can only stop with all workers gone, and then each index was handled exactly once and slot i holds the outcome of candidate i |
| `Scanning.HashDetermines` | internal/index/index.go:234-241 | files with equal change keys have equal content and tracking, so their rows differ in the package at most |
| `SelectionTheorems.SkippedIs` | internal/index/index.go:223-233 | a file is left out as unreadable, oversized (larger than a positive limit) or binary (a NUL among the first 8000 characters) exactly under these conditions, the first that holds |
| `SelectionTheorems.FullSelects` | internal/index/index.go:223-250 | after a full run a path is indexed if and only if it is selected, readable, not larger than the limit and free of NUL in its first 8000 characters |
| `SelectionTheorems.IncrementalSelects` | internal/index/index.go:223-312 | after an incremental run: if and only if it is selected, and these conditions hold or it was indexed before |
| `SelectionTheorems.ChangedSelects` | internal/index/index.go:223-312 | after a run over changed files: if and only if it was indexed before, or is selected and the conditions hold |
| `SelectionTheorems.FullWrites` | internal/index/index.go:252-278 | a full run gives such a file the row and symbol, import, export and todo rows of its parse, field by field |
| `SelectionTheorems.IncrementalWritesNew` | internal/index/index.go:243-278 | so does an incremental run for a file not indexed yet |
| `SelectionTheorems.IncrementalWritesChanged` | internal/index/index.go:234-278 | a file indexed from some content keeps its rows if and only if it cannot be indexed now or has that content under the same tracking; otherwise the new rows are written |
| `SelectionTheorems.RoleIs` | internal/index/meta.go:38-54 | by segments, in any case: a test by its name or by a directory __tests__ strictly inside the path, else a document by its extension, else implementation |
| `SelectionTheorems.ContentKept` | internal/index/index.go:263-275 | with an embedder the scan keeps the content of code that parses and of other files except lock files, and the symbols it writes; without one, nothing |
| `SelectionTheorems.ReportedCounts` | internal/index/index.go:305-337 | the reported numbers are the sizes of the sets of selected paths that are missing, too large, binary, written and left alone, and of the vanished paths |
| `SelectionTheorems.FullRunTotals` | internal/index/index.go:305-344 | after a full run the numbers indexed are the numbers of rows and of index_meta, which names the given commit, state and time |
| `SelectionTheorems.FullTextFinds` | internal/store/index_repo.go:80-133 | every file and every symbol is found by exactly one full-text row, with its name, signature, path and package, and every row finds one |
| `SelectionTheorems.CleanLeavesNothing` | internal/index/index.go:352-374 | a clean run empties every code table and leaves an index state without a commit |
| `Indexing.Write` | internal/index/index.go:281-350 | the metadata transaction is atomic: it commits the specified tables and counters, or leaves every table as it was |
| `Indexing.WriteView` | internal/index/index.go:289-344 | a commit keeps every table consistent, writes counts equal to the table sizes, and changes the path-keyed view as its mode says |
| `Indexing.DeletePathsView` | internal/index/index.go:295-304 | the vanished paths leave the view in any order of deletion |
| `MetadataTheorems.ScanWritable` | internal/extract/extractor.go:151-172 | scanned symbols never violate the UNIQUE constraint, so no run is refused by it |
| `MetadataTheorems.RunSound` | internal/index/index.go:234-250 | after every run each row group is still the extraction of some content whose hash is the stored one |
| `MetadataTheorems.HistoryInvariant` | internal/index/index.go:105-158 | after any sequence of full, incremental, changed and clean runs: no dangling row, an exact full-text index, true counts, the graph the rows call for, sound rows |
| `MetadataTheorems.UnchangedGroup` | internal/index/index.go:234-250 | rows kept as unchanged equal freshly extracted rows exactly when the package is still the current one |
| `MetadataTheorems.IncrementalRefinesFull` | internal/index/index.go:105-158 | after any history, an incremental run leaves the view a full run would build if and only if no indexed candidate is now skipped and no unchanged one has a new package |
| `RunExamples.BinaryStays` | internal/index/index.go:305-312 | a one-file history after which the file turns binary: an incremental run and a rebuild leave different views |
| `RunExamples.PackageStays` | internal/index/index.go:234-250 | a one-file history after which the package of the unchanged file changes: the two views differ |
| `MetadataTheorems.PathGraphIsViewed` | internal/store/graph_repo.go:68-99 | by path, the stored import edges are exactly the resolved imports of the view, whatever the row ids |
| `MetadataTheorems.IncrementalGraph` | internal/index/index.go:162-192 | under that condition the import graph after an incremental run equals the one after a full run |
| `MetadataTheorems.SummarizeStatus` | internal/index/index.go:376-413 | the dry-run counters, head, dirty flag and total, or an error when git fails |
| `MetadataTheorems.StatusIsDryRun` | internal/index/index.go:376-413 | status reports the indexed, unchanged, deleted and skipped numbers an incremental run then reports, and the per-candidate numbers add up to the candidate count |
| `MetadataTheorems.TotalIsStored` | internal/index/index.go:376-413 | the reported total is the number of file rows, which index_meta counts too |
| `MetadataTheorems.SecondRunIsIdle` | internal/index/index.go:105-158 | a second incremental run on the same tree indexes and deletes nothing and changes only the stamp of the index |
| `MetadataTheorems.CleanView` | internal/index/index.go:352-374 | a clean run leaves consistent empty tables |
| `SlashPath.JoinCleaned` | internal/index/resolve.go:86-103 | joining to a directory gives a clean path |
| `Resolve.ResolveRelative` | internal/index/resolve.go:86-103 | the loop returns the id of the first indexed candidate, if any |
| `ResolveTheorems.ResolvesBeside` | internal/index/resolve.go:86-103 | by segments: ./n imported from d/f is the first indexed one of d/n, d/n with each of seven extensions, and d/n/index with each, in this order, and ../n the same in the parent of d |
| `ResolveTheorems.CandidatesAre` | internal/index/resolve.go:86-103 | whatever the specifier, these are the paths tried for the target it leads to |
| `ResolveTheorems.TargetIs` | internal/index/resolve.go:86-88 | a specifier leads from the importer's directory along its segments |
| `ResolveTheorems.StoredEdges` | internal/index/index.go:162-192 | in the stored graph an importer has an edge to that path for each import ./n and ../n, unless it is the importer itself |
| `ResolveTheorems.StoredEdgesOnly` | internal/index/index.go:162-192 | and every stored edge is the first indexed candidate of an import that begins with a dot |
| `ResolveTheorems.GoTest` | internal/index/resolve.go:107-136 | x_test.go is the test of x.go beside it |
| `ResolveTheorems.PythonTest` | internal/index/resolve.go:107-136 | test_x.py is the test of x.py beside it |
| `ResolveTheorems.PythonSuffixTest` | internal/index/resolve.go:107-136 | and so is x_test.py, unless it begins with test_ |
| `ResolveTheorems.MarkedTest` | internal/index/resolve.go:107-136 | x.test.ext and x.spec.ext are tests of x with each of six extensions, tried in this order |
| `ResolveTheorems.StoredLinks` | internal/index/resolve.go:66-81 | in the stored graph a test is linked to the first indexed candidate other than itself, and nothing else is linked |
| `Resolve.ResolveEdges` | internal/index/resolve.go:41-64 | the edges are duplicate-free and exactly those that some import row yields, self-imports left out |
| `Resolve.ResolveLinks` | internal/index/resolve.go:66-81 | the test links are exactly those from the first indexed implementation candidate that is not the test itself |
| `Resolve.ResolveGraph` | internal/index/resolve.go:41-82 | both results, independent of the order the imports are read in |
| `GraphRefresh.EdgesMatch` | internal/index/resolve.go:41-64 | the computed id pairs are exactly the pairs (f, t) for which a relative import of f resolves to t, t not f |
| `GraphRefresh.LinksMatch` | internal/index/resolve.go:66-81 | the computed test links are exactly those the tables call for |
| `GraphRefresh.GraphIsViewed` | internal/index/resolve.go:41-82 | stores with equal path-keyed views have equal graphs by path |
| `GraphRefresh.ResolveGraphEdges` | internal/index/index.go:162-192 | the graph transaction stores exactly that graph and nothing else |
| `GraphRefresh.WithGraphConsistent` | internal/store/graph_repo.go:124-141 | the stored edges join live files in the committed state |
| `Embedder.MeanNormalize` | internal/index/embed.go:411-440 | the loops compute the normalised mean of the usable slots in symbol order, operation by operation, or nothing when no slot is usable |
| `MeanTheorems.MeanIsUnit` | internal/index/embed.go:411-440 | over the reals, for arithmetic that is exact on representable results: when every number on the way is representable, the result is the component-wise mean divided by its length, so of length one |
| `MeanTheorems.UsablePicks` | internal/index/embed.go:414-422 | the mean is over exactly the filled slots of the right dimension, in order |
| `ChunkTexts.TextFollowsSpan` | internal/index/embed.go:323-363 | a symbol that keeps its name, container and signature has the same text if and only if the lines of its span are the same, wherever they stand |
| `ChunkTexts.BodySpanIs` | internal/index/embed.go:346-363 | the body is the lines from the first to the last inclusive, cut at the end of the file, and empty for spans that are none |
| `ChunkTexts.TextDetermines` | internal/index/embed.go:323-342 | symbols of one-word names and containers and a one-line signature have equal texts if and only if name, container, signature and body are equal |
| `ChunkTexts.SignatureLikeBody` | internal/index/embed.go:323-342 | without that, two different symbols can share a text |
| `ChunkTexts.FallbackFollowsHead` | internal/index/embed.go:365-383 | the text of a file without symbols changes if and only if the first 64 KiB of its kept content do |
| `ChunkTexts.MemoryTextIs` | internal/index/embed.go:296-308 | a memory's text is its non-empty title, body and tags, a line break between any two |
| `ChunkTexts.MemoryTextFollows` | internal/index/embed.go:296-308 | every change of a title or a body changes it |
| `ChunkTexts.MemoryTextFollowsTags` | internal/index/embed.go:296-308 | and every change of non-empty tags without spaces |
| `ChunkTexts.MemoryEmbedded` | internal/index/embed.go:243-293 | a memory is embedded if and only if its title, its body or a tag has a character that is no space |
| `ChunkTexts.ModelsApart` | internal/index/embed.go:391-394 | digests are equal if and only if models and texts are, when no model name holds a NUL: a change of model invalidates every stored text |
| `Embedding.CaptureChunks` | internal/index/embed.go:42-89 | exactly the rewritten and vanished files are captured, each with its old row ids and the stored entries of its symbols by identity |
| `Embedding.CaptureOfIs` | internal/index/embed.go:42-89 | a capture of a sound layer holds only entries in which the digest names the text of the vector |
| `CarryTheorems.CarriesExactly` | internal/index/embed.go:160-185 | a symbol's vector is kept without asking the embedder if and only if the file had a symbol of the same name, container and signature whose stored vector is the vector of the same text under this model |
| `CarryTheorems.SentExactly` | internal/index/embed.go:126-201 | a run sends a text of code to the embedder if and only if it is the fallback text of a rewritten file without symbols or the text of a symbol of a rewritten file whose vector is not kept; a full run keeps none |
| `EditTheorems.IdentityApart` | internal/index/embed.go:385-389 | NUL-free symbols have one identity if and only if name, container and signature agree |
| `EditTheorems.KeptExactlyWhenUnedited` | internal/index/embed.go:160-185 | the vector of a symbol with unchanged name, container and signature is kept if and only if no line of its span changed |
| `EditTheorems.NewIdentityUnheld` | internal/index/embed.go:160-185 | under a new name, container or signature nothing is kept |
| `EditTheorems.EditedSymbolSent` | internal/index/embed.go:126-201 | composed over a whole run that rewrites the file: the symbol is sent if and only if a line of its span changed or the run is a full one |
| `Embedding.CarryIsFresh` | internal/index/embed.go:166-185 | a captured vector whose digest equals the new text's is the vector that text would get |
| `Embedding.DropOrphans` | internal/index/embed.go:103-124 | exactly the vectors of the captured old rows disappear, under every model |
| `Embedding.PlanAll` | internal/index/embed.go:126-188 | every symbol of every rewritten file is either carried right or queued with its own text and slot |
| `Embedding.StoreAll` | internal/index/embed.go:204-231 | after the stores the layer has gained exactly the vectors of re-embedding the rewritten files |
| `Embedding.EmbedFiles` | internal/index/embed.go:126-231 | so carrying cannot be told from re-embedding; the phase fails exactly when the one batch of unkept texts is rejected, and then leaves the memory vectors alone |
| `Embedding.EmbedMemories` | internal/index/embed.go:243-293 | the memory vectors become those of embedding every non-blank memory anew; exactly those whose stored digest is not their text's are sent |
| `Embedding.EmbedPhase` | internal/index/embed.go:100-238 | the whole phase: orphans gone, rewritten files and memories as embedded anew; in every transaction, also before a failure, each stored digest names the text of its vector |
| `Running.Run` | internal/index/index.go:105-158 | a run in any mode: tables, vectors, counters, how many texts were embedded and exactly when it fails, and the cache invariant in every transaction; without an embedder no vector table changes |
| `Running.RunClean` | internal/index/index.go:352-374 | a clean run; without an embedder the vector tables stay as they are |
| `VectorTheorems.KeptRight` | internal/index/embed.go:100-238 | a kept file has its right vectors after a run exactly when it had them before |
| `VectorTheorems.RewrittenRight` | internal/index/embed.go:100-238 | a rewritten file has its right vectors whatever was stored or carried |
| `VectorTheorems.RunVectorsRight` | internal/index/embed.go:100-238 | after a run every symbol has the vector of its text and every file its mean or fallback vector, if and only if the kept files had theirs |
| `VectorTheorems.FullRunRight` | internal/index/embed.go:100-238 | a full run makes all vectors right from any state |
| `RunVectors.RunEmbeds` | internal/index/embed.go:126-231 | entry by entry: after a run with an embedder each symbol row of a file it wrote holds the vector and digest of that symbol's text, and the file row those of the fallback text or, with symbols, the mean of their vectors and its digest |
| `RunVectors.FullRunEmbeds` | internal/index/embed.go:126-231 | a full run leaves these for every selected file that can be indexed |
| `RunVectors.RunEmbedsMemories` | internal/index/embed.go:243-293 | and for each memory the vector and digest of its text, unless that is blank |
| `VectorTheorems.RightAgrees` | internal/index/embed.go:100-238 | right vectors depend on the rows shown for a path, not on row ids |
| `VectorTheorems.IncrementalEqualsRebuild` | internal/index/embed.go:100-238 | from right vectors an incremental run equals a full rebuild, view and vectors, up to the names of row ids |
| `VectorTheorems.FullRunCovers` | internal/index/embed.go:100-238 | after a full run every live symbol and file owns a vector |
| `OwnerTheorems.FullRunOwnersExactly` | internal/index/index.go:281-350 | after a full run the owners of code vectors are exactly the live ids if and only if no vector was stored for an id beyond the numbers of files and symbols the run writes |
| `OwnerTheorems.FullRunOverNothing` | internal/index/index.go:281-350 | over a tree without files that is: if and only if no code vector was stored, since none is deleted |
| `VectorTheorems.RunOwnersExact` | internal/index/embed.go:311-321 | if the owners of symbol and file vectors are exactly the live ids before an incremental or changed run, they are so after it, although ids are reused |
| `VectorTheorems.SecondRunEmbedsNothing` | internal/index/embed.go:243-293 | a second incremental run has nothing to drop, parse or embed |
| `SystemHistory.Replay` | internal/index/index.go:105-158 | any sequence of full, incremental, changed and clean runs, with and without an embedder, failing or not, and of adds, edits, removals and imports of memories, on one store: at every point, and after every vector transaction on the way, each stored digest names the text of its vector, and the tables of both layers keep their invariants |
| `SystemHistory.Apply` | internal/index/index.go:105-158 | one such operation, with the whole new state of tables, memories and vectors |
| `SystemHistory.MemoriesAlong` | internal/memory/ops.go:22-200 | seen from the memories such a history is one of memory operations and index steps, so ids are reused only by a restoring import |
| `SystemHistory.CodeAlong` | internal/index/index.go:105-158 | seen from the code tables it is the history of its runs, whatever happens to the embed phase and the memories |
| `ExternalPackages.PackageIsPrefix` | internal/show/graph.go:226-252 | a package root is a non-empty prefix of the specifier |
| `ExternalPackages.PackageIsFixed` | internal/show/graph.go:226-252 | the root of a root is itself |
| `ExternalPackages.NoPackage` | internal/show/graph.go:226-231 | no package exactly for empty specifiers and those that begin with a dot or a slash |
| `ExternalPackages.PackageSegments` | internal/show/graph.go:232-252 | by segments: a scoped package is its first two, one behind a host name its first three at most, any other its first |
| `ExternalPackages.DottedPackage` | internal/show/graph.go:232-252 | a dotted module without slashes belongs to the name before its first dot |
| `GraphProjection.FullMembers` | internal/show/graph.go:63-98 | before the cap: exactly the import edges and test links between selected files and one edge per file and imported package |
| `GraphProjection.Degrees` | internal/show/graph.go:211-221 | the maps count exactly the edges that are not test links |
| `GraphProjection.CutUnique` | internal/show/graph.go:113-128 | the cut by (in-degree desc, path asc) is one set, whatever order the files come in |
| `GraphProjection.Prune` | internal/show/graph.go:135-155 | the filter that writes into the array it reads keeps exactly the visible edges, in order, and the reached packages |
| `GraphProjection.Recount` | internal/show/graph.go:164-173 | every node's degrees become its counts over the visible edges |
| `GraphProjection.ShowGraph` | internal/show/graph.go:25-187 | the projection: total, capped flag, the cut, the pruned edges, described nodes with visible degrees, sorted output |
| `GraphProjection.EdgesExactly` | internal/show/graph.go:63-155 | an edge is returned if and only if it is one of the graph's and its ends survive |
| `GraphProjection.EndpointsAreNodes` | internal/show/graph.go:130-162 | both ends of every edge are nodes, and an external package is a node exactly when a returned edge reaches it |
| `ShownGraph.FilesShown` | internal/show/graph.go:25-128 | the files shown are those in the asked part of the tree, of the asked role and language, all of them or as many as the cap, 200 by default; the total counts all; each node has its row's attributes |
| `ShownGraph.CapLeavesLeast` | internal/show/graph.go:113-128 | a file left out by the cap has fewer importers among the asked files than every file shown, or as many and a larger path |
| `ShownGraph.DegreesShown` | internal/show/graph.go:164-173 | degrees are the numbers of shown edges into and out of a node that are not test links |
| `ShownGraph.ShownInOrder` | internal/show/graph.go:163-175 | nodes stand by id, edges by start, end and kind |
| `GraphTheorems.DegreesBalance` | internal/show/graph.go:164-173 | the in-degrees add up to the edges that are not test links if and only if no surviving file is named like a package a surviving file imports; the out-degrees, if and only if no such file has an import edge or external edge of its own |
| `GraphTheorems.ProjectionUnique` | internal/show/graph.go:25-187 | the input has exactly one result, although maps are ranged over in any order and sorts are unstable, if and only if no such name clashes |
| `GraphTheorems.CutOfIs` | internal/show/graph.go:113-128 | sorting the selected files by (in-degree desc, path asc) and taking the first gives the cut, from the input alone |
| `GraphTheorems.OrdinaryPaths` | internal/show/graph.go:93-96 | there is no clash when no file path begins with ext: |
| `GraphTheorems.ClashingDegrees` | internal/show/graph.go:164-173 | on the input of two files a and ext:x, where a imports x, every result has wrong in-degrees and another result exists |
| `GraphReads.ReadGraph` | internal/store/graph_repo.go:19-121 | the readers return each file row, each stored edge and link by path once, and every import specifier |
| `GraphReads.RowsViewed` | internal/store/graph_repo.go:19-121 | by path, these are the files of the index with their role, language and package, the resolved imports, the test links and every specifier |
| `GraphReads.ProjectsSame` | internal/show/graph.go:25-187 | a projection does not depend on the order of the rows read |
| `GraphReads.SameViewsSameRows` | internal/store/graph_repo.go:19-121 | tables with equal path-keyed views and current graphs give the readers the same rows |
| `GraphReads.ShownGraphSame` | internal/show/graph.go:25-187 | the graph shown after an incremental run is the one shown after a full rebuild, when every candidate is up to date and no name clashes |
| `MemoryText.ParseFormatID` | internal/memory/memory.go:36-45 | parsing a formatted id gives it back, for every 64-bit id above 0 |
| `MemoryText.FormatIDShape` | internal/memory/memory.go:36-36 | an id is mem_ and its decimal digits, padded with zeros to three and no more |
| `MemoryText.ParseEvidenceText` | internal/memory/memory.go:55-82 | path:start-end is read back exactly, also for paths with colons and dashes |
| `MemoryText.ParsedEvidence` | internal/memory/memory.go:55-82 | every accepted evidence value has a non-empty path and a positive, ordered range |
| `MemoryText.ParseLinkExact` | internal/memory/memory.go:91-97 | a link parses to (type, ref) if and only if it is type:ref with a known type and a non-empty ref |
| `RowTables.AppendListed` | internal/store/memory_repo.go:50-73 | ORDER BY id lists rows in insertion order although ids are reused |
| `RowTables.WithoutListed` | internal/store/memory_write_repo.go:80-97 | deleting rows removes exactly them from the owner's list and keeps the order |
| `TagOrder.StoredTags` | internal/store/memory_repo.go:43-47 | tags read back are the distinct tags in ascending order |
| `MemoryTables.WrittenView` | internal/memory/export.go:174-196 | writing under a new id adds that memory, read back with distinct tags and links, and changes no other |
| `MemoryTables.DeletedView` | internal/store/memory_write_repo.go:51-60 | a removal deletes one memory and changes no other |
| `MemoryTables.EditedConsistent` | internal/memory/ops.go:93-181 | an edit changes one memory to removals then additions, and its index row describes the result |
| `MemoryTables.WrittenConsistent` | internal/store/memory_write_repo.go:106-113 | afterwards there is exactly one full-text row per memory, with its title, body and tag set |
| `MemoryTables.DeletedConsistent` | internal/store/memory_write_repo.go:51-60 | the same after a removal |
| `MemoryStore.MemoryDb.NextMemSeq` | internal/store/memory_write_repo.go:7-13 | the counter moves by one or, at its 64-bit end, fails |
| `MemoryStore.MemoryDb.DeleteMemory` | internal/store/memory_write_repo.go:51-60 | the whole new state of the tables, and the memory's vectors gone under every model |
| `MemoryStore.MemoryDb.MemoryFull` | internal/store/memory_repo.go:31-75 | tags sorted, evidence and links in row order |
| `MemoryStore.MemoryDb.WriteRecord` | internal/memory/export.go:174-196 | refused exactly on an id that exists; otherwise the tables are given in full |
| `MemoryStore.DedupeTags` | internal/memory/ops.go:234-245 | first occurrences of the non-empty tags |
| `MemoryStore.Add` | internal/memory/ops.go:22-70 | the errors, in order; otherwise the memory is stored under a number that no committed transaction ever stored |
| `MemoryStore.Edit` | internal/memory/ops.go:93-181 | the errors, in order; otherwise both transactions' result |
| `MemoryEdits.EditChanges` | internal/memory/ops.go:93-181 | an edit succeeds exactly for a stored id, some change and a known kind; then, as memories are read: kind, title and body are the given ones or stay, created stays, updated is now, tags are the old without the removed plus the added, evidence and links keep what is not named in order and then have the added, links once each, and every other memory is as it was |
| `MemoryEdits.AddStores` | internal/memory/ops.go:22-70 | an add succeeds exactly for a known kind, a title with a character that is no space and a counter not at its end; it stores kind, title, body, evidence, the non-empty tags and the links once each, created and updated now, and changes no other memory |
| `MemoryStore.Remove` | internal/memory/ops.go:184-200 | the errors; otherwise the removal with its vectors |
| `MemoryStore.Export` | internal/memory/export.go:54-74 | the records of the selected memories in id order |
| `MemoryEdits.ExportSelects` | internal/memory/export.go:54-74 | an export holds exactly the memories of the asked kind and tag, in ascending order of ids, each under its printed id as it is read |
| `MemoryStore.Import` | internal/memory/export.go:90-121 | one transaction: the specified result, or the error with the store exactly as it was |
| `MemoryRecords.HashRecord` | internal/memory/export.go:220-244 | the loops and sorts compute the hash of the canonical string |
| `MemoryRecords.HashDecidesContent` | internal/memory/export.go:218-244 | for delimiter-free records equal hashes mean equal kind, title, body and multisets of tags, evidence and links, and conversely |
| `MemoryRecords.CommaInTagCollides` | internal/memory/export.go:220-244 | with a comma inside a tag two different records have one hash |
| `MemoryRecords.ReadBackContent` | internal/memory/export.go:174-196 | a record keeps its content through the store if and only if its tags and links do not repeat |
| `MemoryOps.ImportResult` | internal/memory/export.go:107-160 | a successful import keeps every memory it found, counts every record, leaves consistent tables, and numbers new memories with never-stored ids unless it restores ids |
| `ImportTheorems.ImportedAreStored` | internal/memory/export.go:140-157 | after a reassigning import of repetition-free records each one has a stored memory of equal hash |
| `ImportTheorems.ImportedContent` | internal/memory/export.go:140-157 | and of equal content, for delimiter-free documents and stores |
| `ImportedRecords.ReassignedExactly` | internal/memory/export.go:107-160 | a reassigning import succeeds exactly for the right schema and a counter with room; it stores exactly the records whose content neither the store nor an earlier record has, in order, under the next numbers, with all their fields and times, counts them, skips the others and changes no memory |
| `ImportTheorems.IdleImport` | internal/memory/export.go:140-157 | an import changes nothing exactly when it finds every record's hash |
| `ImportTheorems.ReimportIsIdle` | internal/memory/export.go:86-121 | importing a repetition-free document again skips every record and changes nothing |
| `ImportTheorems.ReimportIdleExactly` | internal/memory/export.go:86-121 | for delimiter-free documents and stores: if and only if no record repeats a tag or a link |
| `ImportTheorems.RepeatedTagIsWrittenAgain` | internal/memory/export.go:140-157 | a document on which the second import is not idle |
| `ImportTheorems.PreserveImportExactly` | internal/memory/export.go:123-138 | an id-preserving import succeeds if and only if the schema fits, all ids parse, and they clash neither with the store nor with each other |
| `ImportTheorems.ExportRoundTrip` | internal/memory/export.go:54-160 | any export, restored into an empty store, exports as the identical document |
| `MemoryHistory.StepKeeps` | internal/memory/ops.go:22-200 | every operation keeps: consistent tables, a counter past every id ever stored, no memory vector without its memory |
| `MemoryHistory.HistoryKeeps` | internal/memory/ops.go:22-200 | so it holds at every point of every history from the empty store |
| `MemoryHistory.NewIdsAreNew` | internal/store/memory_write_repo.go:5-20 | an id handed out by add or by a reassigning import was in no earlier state of the history |
| `MemoryHistory.ReuseExactly` | internal/store/memory_write_repo.go:5-20 | an operation brings an id back if and only if it is an id-preserving import that succeeds and names an id stored before |
| `MemoryHistory.RemovedIdComesBack` | internal/store/memory_write_repo.go:5-20 | a history in which it happens: add, remove, restore of an export taken in between |
| `MemoryHistory.EmbedPhaseIsIndexed` | internal/index/embed.go:240-293 | a completed embed phase over the stored memories is an index step of such a history |
| `MemoryHistory.FailedPhaseIsIndexed` | internal/index/embed.go:240-293 | so is a failed one, and a run without an embedder |
| `Ranking.ScoreName` | internal/search/rank.go:113-134 | the loop returns 1.0 for the whole query or an exact token, else 0.7 for a prefix, else 0.4 for a substring, else 0 |
| `Ranking.ScoreRange` | internal/search/rank.go:40-59 | without content matches the score of every candidate lies in [0.02, 0.90] |
| `Ranking.ScoreRangeReached` | internal/search/rank.go:40-59 | and both ends occur |
| `Ranking.ScoreSignals` | internal/search/rank.go:53-59 | the loop computes the weighted sum of the features |
| `Ranking.ScoreCoverage` | internal/search/rank.go:137-149 | the loop returns the fraction of tokens that occur |
| `Ranking.ScoreInUnit` | internal/search/rank.go:40-59 | the score of every candidate lies in [0, 1] |
| `Ranking.ScoreMonotone` | internal/search/rank.go:40-59 | more importers, tests, memory links or content never lower it |
| `Ranking.Dominant` | internal/search/rank.go:62-69 | the first feature of largest contribution |
| `Ranking.NeverWeak` | internal/search/rank.go:62-72 | that feature never has value 0, so the "weak match" branch is never taken |
| `Ranking.RoundError` | internal/search/search.go:659-661 | rounding errs by at most 1/20000 and stays in [0, 1] |
| `Ranking.RoundMonotone` | internal/search/search.go:659-661 | rounding never inverts an order |
| `SearchTheorems.ScoreNumbers` | internal/search/rank.go:40-59 | the seven weights of the score, in numbers |
| `SearchTheorems.CentralityIs` | internal/search/rank.go:151-157 | fifths of the importers up to five, three tenths more for tests, at most one |
| `Text.LowerLetters` | internal/search/rank.go:113-149 | names and paths are compared in lower case, letter by letter |
| `SearchTheorems.CoverageIs` | internal/search/rank.go:137-149 | coverage is the number of query words that occur over their number |
| `SearchTheorems.BetterName` | internal/search/rank.go:113-134 | other things being equal an exact name scores more than a prefix, a prefix more than a part, a part more than none, in both modes |
| `SearchTheorems.BetterRole` | internal/search/rank.go:159-170 | implementation more than documents, documents more than tests |
| `SearchTheorems.BetterConnected` | internal/search/rank.go:40-59 | more importers up to five, tests, a memory, and more content matches up to three each score strictly more |
| `SearchTheorems.ExactNameFirst` | internal/search/rank.go:113-134 | without content matches a keyword answer puts an exactly named hit before every hit whose name holds no word of the query, whatever else is known |
| `SearchTheorems.WordCharacters` | internal/search/rank.go:210-215 | word characters are the ASCII letters and digits and the underscore |
| `Search.VectorLeadsExactly` | internal/search/search.go:461-484 | on the semantic path a candidate with this vector score is returned before every candidate without one, for every query and all signals, if and only if the vector score is at least 5281/14000, about 0.377; scores are compared as rounded |
| `Ranking.TokensStep` | internal/search/rank.go:190-208 | tokens are the lower-cased maximal runs of word characters |
| `Search.CandKeyInjective` | internal/search/search.go:141-143 | NUL-free candidates have equal keys only if they are the same |
| `SearchTheorems.KeysTellApart` | internal/search/search.go:141-143 | NUL-free candidates share a key if and only if they agree in grain, path and name and, as symbols, in container |
| `Search.MetadataCandidates` | internal/search/search.go:247-282 | the loop adds each live hit under its key unless the key is taken |
| `Search.RescueKeeps` | internal/search/search.go:243-282 | nothing that was there is overwritten, and exactly the hits' keys are added |
| `Search.SemanticCandidates` | internal/search/search.go:293-334 | symbol neighbours, then file neighbours, then the rescue |
| `SearchTheorems.DistanceIsScore` | internal/search/search.go:293-334 | a neighbour's vector score is one minus its distance, 1 at distance 0 and 0 from distance 1 on; nothing else of the candidate depends on the distance |
| `SearchTheorems.NearerLeads` | internal/search/search.go:293-334 | in the answer of a semantic search, of two neighbours with the same signals and distances in [0, 1] the nearer never scores less, and scores more and stands first when they are 1/7000 apart |
| `SearchTheorems.NearerIsReturned` | internal/search/search.go:206-215 | and when the farther is returned so is the nearer, if it is a symbol |
| `SearchTheorems.ExplainedByVector` | internal/search/search.go:461-484 | a hit is explained by its vector exactly when that is the larger part of its score |
| `Search.RescueKeepsVectors` | internal/search/search.go:293-334 | a candidate has a vector score exactly when a neighbour search found it, and the rescue leaves that score as it was |
| `Search.FoldFileHits` | internal/search/search.go:339-351 | exactly the files beside a surfaced symbol of the same path go |
| `Search.FoldedApart` | internal/search/search.go:339-351 | no file stands beside a surfaced symbol of its path, and whatever went has such a symbol among what is left |
| `Search.SearchCode` | internal/search/search.go:145-215 | the code section of a search: an error exactly when the query has no word character; otherwise the top of a ranking of the folded candidates, ordered by score, name and path, no longer than the limit (15 by default), every score in [0, 1] whatever distances and counts came back |
| `Search.ContentCandidates` | internal/search/search.go:430-457 | content matches set the density of the candidate under their key or add the candidate of an indexed file, whatever order the counts are met in |
| `Search.HitInUnit` | internal/search/search.go:461-484 | every reported score lies in [0, 1] |
| `Search.RankHits` | internal/search/search.go:206-215 | the hits are the sorted candidates cut off at the limit, met in some order of the map |
| `Search.RankingDetermined` | internal/search/search.go:206-215 | the returned sequence of scores, names and paths does not depend on that order |
| `Search.TopOfRanking` | internal/search/search.go:212-215 | what is cut off ranks behind everything returned, and the length is the smaller of limit and candidates |
| `Search.MemoryCandidates` | internal/search/search.go:496-522 | neighbours, then unseen full-text ids, stably sorted by score |
| `Search.MemoriesRanked` | internal/search/search.go:496-522 | every id either source found is ranked, best first, and one found by text only appears once |
| `SearchTheorems.MemoriesScored` | internal/search/search.go:496-522 | each neighbour is ranked with one minus its distance, to four decimals, and each memory found by its text only with 0.6 |
| `SearchTheorems.NearerMemoryFirst` | internal/search/search.go:496-522 | so a nearer memory stands first, and those found by text only stand behind neighbours nearer than 0.3999 and before those farther than 0.4001 |

## Left out

- SQLite itself, WAL and locking, FTS5 matching and ranking, and nearest-neighbour search: only table contents, uniqueness, cascades and atomicity are modelled; what a query matches is an input of search.
- Tree-sitter parsing, Model2Vec encoding, SHA-1 and SHA-256 internals and IEEE 754 rounding: deterministic parameters, symbolic digests and real numbers stand for them.
- git, ripgrep, the file-system walk and glob matching: the candidate list and the tree are inputs.
- The commands, rendering, JSON encoding of the export document, configuration, logging, migrations and the live snippets: presentation and input or output.
- The grep and the re-parse behind live content candidates (internal/search/search.go:384-427): their counts per key are an input of a search.
- The wording of explanations (internal/search/rank.go:74-100), risk hints and memory bodies in results: presentation.
- Warnings about unresolved links on add and edit: they do not change what is stored.
- Storage failures in the middle of a transaction other than a refused insert, an id clash or an exhausted counter: the engine rolls those back in the same way.
- GraphProjection.ShowGraph: the key that keeps a file's package edges apart is a pair instead of a NUL-joined string, which is the same for paths without NUL.
- Running.Run: a changed-mode run is a run over the candidates it is given; that it sees neither deletions nor unmodified files is why no completeness is claimed for it.
- MeanTheorems.MeanIsUnit: it speaks about computations in which nothing rounds; how large rounding errors can get is not modelled.
- PackageTheorems.PackageIs: the work directory is absolute and clean, as the command resolves it.
- SearchTheorems.NearerIsReturned: a file that is nearer may be folded into a symbol of its path instead.
- MemoryHistory.NewIdsAreNew: id-preserving imports are excluded, because they may bring back an id; ReuseExactly covers them.
