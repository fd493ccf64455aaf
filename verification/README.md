# OptimusDB document-store engine: model and proofs

A Dafny model of OptimusDB's local document-store engine, proved for all inputs, runs and schedules: how concurrent
writes are combined, how queries are answered by shortcuts, and how derived state (lineage graph, store registry,
capacity registry) stays consistent. `dafny verify dfyconfig.toml` checks everything.

One module per component:

| module | models |
|---|---|
| `JsonValues`, `Text` | decoded JSON with dotted paths; trimming and lower-casing |
| `Matching` | the condition language: operators, `$and`/`$or`, the filter of a query |
| `DocumentIndex`, `Documents`, `DocumentStore` | the patched document store: last-writer-wins index, inverted field index, `Put`/`PutAll`/`Get`/queries |
| `Chunking`, `WriteRoutes`, `GroupCommit`, `CleanFailures` | cutting batches into log entries, the three write routes, the group-commit writer as an object and as a protocol over all interleavings, also with rejected documents |
| `LineageQueue`, `LineageTraces`, `LineageGraph`, `LineageCoalescing` | the coalescing queue of lineage updates; what it can process, and in what order; the two-sided edge lists of the catalog; what coalescing does to them |
| `QueryEngine`, `QueryCommand`, `Merging` | local queries and their fast paths, the QUERY command, merging rows and persisting remote ones |
| `StoreRegistry`, `Capacity` | dynamic stores over crash and restart; capacity ids and reservations |
| `PeerQuery`, `PeerHandler` | the peer protocol: options, fan-out, collectors, queries in flight |
| `Exchange` | export and import of stores as JSON lines |

Objects that the program updates in place are classes whose methods carry its loops; each method is proved against a
function of the old state, and the properties are lemmas about those functions and about runs of them. Go's random map
iteration is a loop that picks keys arbitrarily. Failures, lost replies, timeouts and crashes are arbitrary choices.

## What the model takes as given

- `json.Marshal` and `json.Unmarshal` are a pair of functions that undo each other; encoded JSON is not empty and has no
  raw line break (section 7 of RFC 8259). Raw JSON and archive files are sequences of one character per byte.
- `strconv.ParseFloat` and `regexp.MatchString` are uninterpreted; numbers are exact.
- Log entries have a hash of their content; a local append gets a clock later than every clock in the log.
- OrbitDB reopens the address it is given, and the address of a store created by name ends in that name.
- Peer ids: decoding undoes the text form, and no text form equals the raw bytes of a connected peer.
- A UUID is never drawn twice by one agent; agents have different printable peer ids.

## Where the code and its comments or documentation differ

The model follows the code.

- `app/query_fastpath.go:21-35` calls the id lookup a shortcut for the scan. An id with both a space and a dot is looked up
  with its dots turned into spaces (`third_party/go-orbit-db/stores/documentstore/document.go:28-31`), so a document
  stored under it is not found: `QueryEngine.IdRouteExact` is the exact condition.
- A document with an empty `_id` is acknowledged by `Put` and never indexed (`GroupCommit.EmptyIdIsLost`), although
  `app/group_commit.go:8` answers callers when their document is stored.
- The index is said not to depend on the order of entries
  (`third_party/go-orbit-db/stores/documentstore/index.go:14-17`). That needs equally stamped latest writes of a key to
  agree; then, and only then, it holds (`DocumentIndex.OrderIndependence`).
- `app/lineage_queue.go:5-8` says that no final state is lost when a document is updated again before its turn. That fails
  for the catalog in three ways. An update without references keeps the old ones, so references added and then removed
  stay or not, depending on the schedule (`LineageCoalescing.ReferencesLost`). References are looked up when a job is
  processed, so one to a document updated in between may become a placeholder (`ForwardReference`). Documents that share a
  type and a name share an entry, and are reordered (`SharedEntryReordered`). `UpstreamSafeIff`, `DownstreamSafeIff` and
  `EntrySafeIff` say exactly when coalescing is harmless.
- Deletes do not go through that queue (`app/service.go:3388-3397`): an update still waiting puts a deleted document's
  entry back (`LineageCoalescing.DeletedEntryReturns`).
- One log entry that cannot be parsed ends every update of the index from the log
  (`third_party/go-orbit-db/stores/documentstore/index.go:489-500`); `DocumentIndex.MissesNothingIff` says when that leaves
  other entries out.
- Conditions mixing a failing operator with an ill-typed `$regex` or `$exists` answer or panic depending on map order
  (`Matching.ConditionOrderMatters`); operators the code does not know are ignored.
- On an ill-typed filter the routes of a query may differ in whether they panic: the field index can rule out the document
  on which the scan panics. Routes that answer agree (`QueryEngine.QueryLocalDB`).
- `app/query_handler.go:333-350` compares the text ids of discovered peers with the raw ids of connected ones. A peer
  that is both is listed twice and asked twice, and a peer known from discovery only is never asked, although the table at
  `app/query_handler.go:14-23` says that unconnected peers are reached
  (`PeerQuery.AtMostOneRequestIff`, `PeerQuery.DiscoveryAddsNoPeer`).
- `dedupResults` keeps one row per key, sure to be the local one exactly when no other row has its key
  (`Merging.KeptIffAlone`); PARALLEL_MERGE in the peer handler keeps the version of the side that finishes first
  (`PeerHandler.ParallelMergeKeepsOwnIff`).
- `app/query_fastpath.go:71-74` says that rows stored locally are not written again. A document put between the existence
  check and the puts is overwritten; `Merging.InterferenceExact` says when that loses nothing.
- `backupfunc/exchange.go:267-270` says that built-in stores that failed to open are rejected by `EnsureDocStore`. They
  are not: their names are valid, so a dynamic store of that name is created, and a later boot on which the built-in store
  opens does not reopen it. `StoreRegistry.RestartExact` has this as its condition.
- `app/app.go:191-194` describes a positive `CapIDPeerLen` as sharing a prefix; the code keeps the end of the peer id.
  `Capacity.DistinctIffSeparated` says what is lost.
- A put that drops catalogued references leaves stale downstream entries (`LineageGraph.RunConverse`); a put
  without references keeps the document's old edges.
- A request that carries options decides on `include_local` and `annotate_source` even where it leaves them out
  (`app/service.go:304-306`), so the stored-bytes shortcut is reached only by requests that ask for local rows.

## Model

| member | source | states |
|---|---|---|
| `JsonValues.GetNestedValue` | app/service.go:3679-3696 | the loop over the dotted path yields the value found by following the keys, null as soon as a step is missing, null or no object |
| `JsonValues.PlainPathIsField` | app/service.go:3679-3696 | a path without a dot means the top-level field of that name |
| `JsonValues.DottedPathDescends` | app/service.go:3679-3696 | a dotted path leads through the field before its first dot; what is no object has no fields |
| `Matching.MatchesCondition` | app/service.go:3699-3752 | the answer is that of some iteration order of the operators; unless it is a panic it is their conjunction, and well-typed conditions never panic |
| `Matching.ConditionOrderMatters` | app/service.go:3709-3751 | all iteration orders give one answer, exactly unless one operator fails and another one panics in its type assertion |
| `Matching.CanPanicIff` | app/service.go:3732-3740 | evaluating a condition object can panic exactly when an argument of $regex is no text or one of $exists no Boolean |
| `Matching.Comparisons` | app/service.go:3755-3790 | a document passes $gt, $gte, $lt or $lte exactly when its field, read as a number, is greater than, at least, less than or at most the threshold; strings that parse count as their number, all else as 0 |
| `Matching.Memberships` | app/service.go:3793-3831 | $in asks whether the field is in the argument, $contains whether the argument is in the field, $all whether every element of it is: as an element of a list, or a text within a text |
| `Matching.Equalities` | app/service.go:3732-3752 | $exists asks whether the field is there, null not counting; $ne is the negation of equality, which a plain condition asks for; $regex asks for a match of a text; an unknown operator asks for nothing |
| `Matching.MatchesCriteriaEnhanced` | app/service.go:3848-3894 | terminates on every nesting of $and and $or; whatever order the keys come in, an answer is the Boolean meaning, and well-typed criteria are always answered |
| `Matching.CriteriaFilter` | app/service.go:2247-2291 | an answer is yes exactly for objects that satisfy every key of some filter of the list, whatever order the keys come in; well-typed filters are always answered |
| `Matching.FilterIsOrOfAnds` | app/service.go:2247-2291 | a list of filters asks for one of them, a filter for all its keys, a condition for all its operators; only objects pass |
| `Matching.DottedFilter` | app/service.go:2265-2287 | a condition on a dotted path is one on the object in the field before the dot, and on an empty one where there is none |
| `Matching.CriteriaMean` | app/service.go:3848-3894 | the criteria hold key by key: $and asks for all of a list of criteria, $or for one, any other key for what it asks for in a filter |
| `Matching.FilterIsOr` | app/service.go:2247-2291 | a list of filters without logical keys means the same as the single criterion $or of that list |
| `Matching.LogicalKeysDiffer` | app/service.go:2265-2287 | with a logical key the two matchers part: criteriaFilter takes $or for a field name |
| `Matching.IndexableEqualities` | app/query_fastpath.go:44-60 | collects exactly the string equalities on dot-free fields of a single filter, and every document that passes the filter satisfies them |
| `Matching.ExactEqualities` | app/query_fastpath.go:161-174 | succeeds exactly on one non-empty filter made only of such equalities, and then passing the filter is equivalent to them |
| `DocumentIndex.LaterIsTotalOrder` | third_party/go-orbit-db/stores/documentstore/index.go:45-53 | newer is a strict total order on stamps (clock time, then id), so there is a last write |
| `DocumentIndex.ApplyAllReflects` | third_party/go-orbit-db/stores/documentstore/index.go:415-501 | applying entries in any order, repetitions and unparsable ones included, leaves under every key the latest write of it in the set of entries |
| `DocumentIndex.LatestWriteShows` | third_party/go-orbit-db/stores/documentstore/index.go:45-53 | in an index of a log a key shows what the entry with the greatest clock time of those that write the key leaves, at equal times the one with the greater id in byte order (of a PUTALL its first document under the key; nothing after a DEL), and nothing when none writes it |
| `DocumentIndex.LatestWriteWins` | third_party/go-orbit-db/stores/documentstore/index.go:415-501 | so after applying the entries in any order and any number of times |
| `DocumentIndex.OrderIndependence` | third_party/go-orbit-db/stores/documentstore/index.go:8-17 | the index is the same for every order of application exactly when equally stamped latest writes of a key agree |
| `DocumentIndex.DistinctStampsConverge` | third_party/go-orbit-db/stores/documentstore/index.go:10-17 | in particular when no two entries carry the same stamp |
| `DocumentIndex.Index.SetKey` | third_party/go-orbit-db/stores/documentstore/index.go:376-403 | stores the bytes under that key only, and keeps the inverted index equal to the stored fields |
| `DocumentIndex.Index.DelKey` | third_party/go-orbit-db/stores/documentstore/index.go:406-412 | removes the bytes under that key and its listings |
| `DocumentIndex.Index.WriteIfNewer` | third_party/go-orbit-db/stores/documentstore/index.go:432-456 | a write with a greater clock time than the key's last write lands and sets the key's clock, one with a smaller time changes nothing, and at equal times the greater id decides; deletions leave a clock too |
| `DocumentIndex.Index.UpdateLocal` | third_party/go-orbit-db/stores/documentstore/index.go:464-501 | applies the new entries to the index as the entry-by-entry function does, keeping the inverted index exact |
| `DocumentIndex.Index.UpdateFromLog` | third_party/go-orbit-db/stores/documentstore/index.go:479-501 | the index becomes that of applying the log in some order up to the first entry that cannot be parsed; when all can, that of the whole log, for every order if latest writes agree |
| `DocumentIndex.MissesNothingIff` | third_party/go-orbit-db/stores/documentstore/index.go:489-500 | no order of the log leaves out an entry that can be parsed, if and only if every entry can be parsed or all that can had been applied before |
| `DocumentIndex.Index.KeysByFields` | third_party/go-orbit-db/stores/documentstore/index.go:163-201 | when it answers, with exactly the keys whose stored documents have the values asked for on the indexed fields, without duplicates |
| `DocumentIndex.Index.RawsByFields` | third_party/go-orbit-db/stores/documentstore/index.go:207-244 | answers exactly when every field asked for is indexed, with the stored bytes of the matching keys |
| `Documents.PutDocsAt` | third_party/go-orbit-db/stores/documentstore/document.go:101-125 | after putting documents one by one, a key holds the last of them with that _id, else what it held |
| `DocumentStore.Store.Put` | third_party/go-orbit-db/stores/documentstore/document.go:101-125 | a put document is stored under its _id and nothing else changes; a document without string _id, or a failed append, changes nothing; meets the store contract the write routes work with |
| `DocumentStore.Store.PutAll` | third_party/go-orbit-db/stores/documentstore/document.go:166-197 | one entry has the effect of putting the documents one by one in order; one keyless document or a failed append changes nothing; meets the store contract the write routes work with |
| `DocumentStore.Store.Get` | third_party/go-orbit-db/stores/documentstore/document.go:23-99 | finds the document under the search key: the key itself, or with dots turned into spaces when it contains a space |
| `DocumentStore.Store.Query` | third_party/go-orbit-db/stores/documentstore/document.go:216-258 | for every criteria list an answer lists exactly the stored documents that pass, each once; an error needs a value that does not decode, a panic an ill-typed filter |
| `DocumentStore.Store.QueryIndexed` | third_party/go-orbit-db/stores/documentstore/document.go:341-353 | an answer of the index route lists exactly what the scan lists, for a filter that implies the equalities |
| `DocumentStore.Store.QueryRaw` | third_party/go-orbit-db/stores/documentstore/document.go:263-305 | an answer has the stored bytes of exactly the documents the scan lists |
| `DocumentStore.Store.QueryRawExact` | third_party/go-orbit-db/stores/documentstore/document.go:310-316 | answered by the index alone, returns the bytes of exactly the documents with these field values |
| `Chunking.CutIsLongest` | app/group_commit.go:154-160 | the greedy cut is a legal entry and the longest prefix that is one |
| `Chunking.ChunksPartition` | app/batch_put.go:44-66 | the chunks concatenate back to the batch, and each is non-empty and within both limits unless a singleton |
| `Chunking.GreedyIsOptimal` | app/group_commit.go:148-160 | no order-preserving cut into legal entries has fewer entries than the greedy one |
| `Chunking.ChunkEnd` | app/group_commit.go:154-160 | the index loop of write stops where the greedy cut ends |
| `Chunking.SplitBatches` | app/batch_put.go:46-66 | cuts at the same places as write does for the same sizes and limits |
| `WriteRoutes.PutOneByOne` | app/batch_put.go:114-132 | however the store fails, returns the documents whose Put succeeded, each of them stored or replaced by a later one with its _id, one log entry for each; on a reliable store exactly the good ones are put in order |
| `WriteRoutes.PutBatches` | app/batch_put.go:90-112 | the same for the batched route, and one log entry per batch when every document is good |
| `WriteRoutes.WriteChunk` | app/group_commit.go:163-181 | whatever fails, a nil answer means the document, or a later one of the batch with its _id, is stored; on a reliable store the chunk settles as putting its good documents |
| `WriteRoutes.Write` | app/group_commit.go:148-183 | answers every request of the batch truthfully; on a reliable store puts the good documents in order, in the entries of the greedy cut when all are good |
| `WriteRoutes.PutDocumentsBatched` | app/batch_put.go:68-112 | however the store fails, the documents returned are those whose call succeeded, each stored or replaced by a later one, other ids are untouched, and an error says that there were others; on a reliable store every route puts and returns exactly the good documents in order |
| `GroupCommit.StoreWriter.Enqueue` | app/group_commit.go:101-108 | appends the requests and starts a writer exactly when none is running |
| `GroupCommit.StoreWriter.Drain` | app/group_commit.go:135-143 | takes the whole queue, and stops the writer exactly when it is empty |
| `GroupCommit.StoreWriter.Run` | app/group_commit.go:120-146 | without new arrivals, stops with an empty queue, every request answered in order and truthfully; when the store is reliable and the documents good, in the entries of the greedy cut; other ids are untouched |
| `GroupCommit.RunInv` | app/group_commit.go:83-183 | the protocol invariant holds in every interleaving of callers, receivers and writers, with store calls failing at will, even after storing some of their documents |
| `GroupCommit.OneLiveWriter` | app/group_commit.go:101-107 | in every reachable state there is at most one live writer, and a non-empty queue has one |
| `GroupCommit.AnsweredOnce` | app/group_commit.go:163-181 | every step answers no request or the next one in arrival order, and never changes an answer |
| `GroupCommit.WriterNeverBlocks` | app/group_commit.go:163-181 | a live writer can always take a step: its send on a one-slot channel never blocks |
| `GroupCommit.WritersStop` | app/group_commit.go:134-146 | once nothing more arrives, a bounded number of writer steps remains |
| `GroupCommit.EntryIsGreedy` | app/group_commit.go:148-160 | in the protocol too a writer cuts entries within both limits, or of one document, and one more document would be over a limit |
| `GroupCommit.QuietMeansDone` | app/group_commit.go:5-11 | when no writer can move the queue is empty and every request is answered, and if no store call failed the store equals putting all documents one at a time in arrival order |
| `CleanFailures.GoodDocumentsStored` | app/group_commit.go:148-183 | in every interleaving in which a store call fails only if it contains a rejected document, and then without effect: every answer says whether its document is good, and when no writer can move the store equals putting the good documents in arrival order |
| `GroupCommit.NilMeansStored` | app/group_commit.go:8-11 | a nil answer means the document has a string _id and that it or a later arrival with its _id is stored, then and ever after, exactly unless the _id is empty |
| `GroupCommit.EmptyIdIsLost` | app/group_commit.go:163-182 | the exception: a run in which a document with an empty _id is answered nil and stored nowhere |
| `LineageQueue.KeysAreDistinct` | app/lineage_queue.go:30-42 | keys are equal exactly for the same store and id, for store names without NUL |
| `LineageQueue.DocumentKeysAreDistinct` | app/service.go:4215 | so for all store names the registry accepts |
| `LineageQueue.CoalescingQueue.Enqueue` | app/lineage_queue.go:30-42 | the latest version replaces the waiting one, a new key joins at the end, a worker starts exactly when none runs; order stays duplicate-free with the pending keys as its set |
| `LineageQueue.CoalescingQueue.Take` | app/lineage_queue.go:44-68 | takes the first key with its latest version, or stops the worker on an empty queue |
| `LineageQueue.ProcessedInOrder` | app/lineage_queue.go:30-68 | in every run, order lists the pending keys once each, waiting keys have a worker, and the processed versions of a key are a subsequence of the entered ones |
| `LineageQueue.DrainedOutcome` | app/lineage_queue.go:44-68 | once drained, the versions processed of each key are a subsequence of the entered ones ending in the last, so processing that overwrites by key has the outcome of processing every update in order |
| `LineageQueue.TurnComes` | app/lineage_queue.go:30-68 | a key waiting in place i is taken by the (i+1)st turn of the worker, however often keys are enqueued again |
| `LineageQueue.WorkerNeverStuck` | app/lineage_queue.go:44-68 | in every reachable state a worker can take its next step, and without a worker the queue is drained |
| `LineageQueue.WorkerStops` | app/lineage_queue.go:44-68 | once nothing more is enqueued every step of the worker lowers a measure by one, so the queue is drained after that many |
| `LineageTraces.RunsAreTraces` | app/lineage_queue.go:30-68 | the lists of jobs a drained queue can have processed are exactly the traces of what was enqueued: every update part of one job of its document, jobs in the order in which their keys got in line, and a key back in line only after its last job and all before it were taken |
| `LineageTraces.SeenBefore` | app/lineage_queue.go:30-68 | if documents have a property in all versions or none, something with it has been processed before a job exactly when it was enqueued before that job's key got in line |
| `LineageTraces.SettersExact` | app/lineage_queue.go:30-68 | which jobs can be the last of a drained run to set something: exactly those that set it, are the last version of their document unless that sets nothing, and ahead of which every other document that will set it later can be in line with its last version |
| `LineageTraces.UnsetExact` | app/lineage_queue.go:30-68 | some drained run has no job that sets it if and only if no document does in its last version |
| `LineageTraces.EscapesIff` | app/lineage_queue.go:30-68 | some drained run has only good jobs for a document, if and only if its updates can be cut into good stretches |
| `LineageCoalescing.SkippedUpdateExact` | app/lineage_queue.go:5-8 | skipping a catalog update followed by another of the same entry leaves the whole catalog as it would be if and only if the second has references, or the first none or the catalogued ones, and every catalogued reference of the first is one of the second or lists the document already |
| `LineageCoalescing.FieldSafeIff` | app/service.go:3610-3637 | a field that updates of any number of documents set or leave alone (the name in a metadata document) ends the same in every drained run if and only if all jobs that can be the last to set it set it alike, and as before if no last version sets it |
| `LineageCoalescing.UpstreamSafeIff` | app/lineage_manager.go:108-161 | over all drained runs and all ways of looking up references when a job is processed, the upstream list of an entry, of however many documents, is that of processing every update in order, if and only if the references of all jobs that can be the last to set it resolve in one way only, and to one list; the one from before if no last version has references |
| `LineageCoalescing.DownstreamSafeIff` | app/lineage_manager.go:108-255 | whether an entry, catalogued before or during the run, lists a document downstream does not depend on the schedule, if and only if it did before; or no version has a reference that may resolve to it on arrival; or every way to cut the document's updates into jobs has one that must |
| `LineageCoalescing.EntrySafeIff` | app/lineage_manager.go:30-105 | whether an entry is catalogued does not depend on the schedule, if and only if it was before, no document ever has its type and name, or one has in its last version |
| `LineageCoalescing.ReferencesLost` | app/lineage_queue.go:5-8 | in particular, of an update with references and one without, some drained run ends with another upstream list than processing both in order |
| `LineageCoalescing.ForwardReference` | app/lineage_manager.go:142-161 | a reference to a document first updated between two updates of the referring one: in order it resolves to that document's entry, in a drained run that coalesces the two updates to a placeholder |
| `LineageCoalescing.RenamedReference` | app/lineage_manager.go:142-161 | that documents feeding a matched entry keep their type and name is needed: an input that meets the other condition of the theorem and is not safe |
| `LineageCoalescing.SharedEntryReordered` | app/lineage_queue.go:30-42 | two documents that share an entry are reordered: of two updates of one around one of the other, some drained run ends with another upstream list |
| `LineageCoalescing.DeletedEntryReturns` | app/service.go:3388-3397 | an entry deleted while updates wait is back once the queue is drained, if and only if an update of a document with its type and name was in hand or waiting |
| `LineageGraph.TableUriIsNoPlaceholder` | app/metadata_extractor.go:309-323 | no document's own URI is an Unknown placeholder, whatever its type and name |
| `LineageGraph.TableUriInjective` | app/metadata_extractor.go:88-89 | a URI determines the type and name it was built from |
| `LineageGraph.LineageManager.PopulateDatacatalog` | app/lineage_manager.go:30-105 | creates the entry without edges, or renames it and keeps its edges |
| `LineageGraph.LineageManager.CreateLineageRelationships` | app/lineage_manager.go:108-205 | resolves each reference to a matching entry of the catalog, or to a placeholder exactly when there is none; replaces the upstream list by these and adds the document to their downstream lists once; without references changes nothing |
| `LineageGraph.LineageManager.AddToDownstream` | app/lineage_manager.go:208-255 | adds the URI to the target's downstream list unless it is there or the target is no entry |
| `LineageGraph.LineageManager.RemoveLineage` | app/lineage_manager.go:269-349 | removes this entry only; entries listed downstream of it lose its URI upstream, those listed upstream of it lose it downstream, with the rest of these lists in order; all other entries, names and lists stay |
| `LineageGraph.LineageManager.OnDocumentPut` | app/persistence_interceptor.go:27-63 | catalog step first, then edges; changes the document's own name and upstream list and adds it once to the downstream lists of its references, nothing else; keeps the graph consistent, and does nothing when disabled |
| `LineageGraph.LineageManager.OnDocumentDelete` | app/persistence_interceptor.go:66-83 | removes the document's entry and its URI from the lists of its neighbours, nothing else; keeps the graph consistent, and does nothing when disabled |
| `LineageGraph.PutChangesOnly` | app/lineage_manager.go:30-255 | for every catalog, what a put leaves of every entry: name, upstream and downstream list |
| `LineageGraph.DeleteChangesOnly` | app/lineage_manager.go:269-349 | for every catalog, what a delete leaves of every other entry: its name, and its lists without the deleted URI where the deleted entry listed it, unchanged elsewhere |
| `LineageGraph.RunConsistent` | app/persistence_interceptor.go:27-93 | after any run of puts, updates and deletes, with the interceptor switched off and on at any time, every upstream URI is a placeholder or a live entry that lists the dependent downstream, and downstream lists have no duplicates |
| `LineageGraph.NoDanglingEdge` | app/persistence_interceptor.go:66-93 | in every reachable state, deleting a document leaves neither its entry nor an upstream list that mentions it, if and only if the interceptor is enabled or there is no such entry |
| `LineageGraph.RunNamed` | app/lineage_manager.go:30-105 | in every reachable state every entry bears the name in its URI, so what a reference matches depends on the entries only |
| `LineageGraph.PutKeepsConverse` | app/lineage_manager.go:159-205 | the converse (every downstream entry lists the URI upstream) survives a put exactly when the put drops no catalogued reference |
| `LineageGraph.DeleteKeepsConverse` | app/lineage_manager.go:269-349 | a delete keeps the converse |
| `LineageGraph.RunConverse` | app/persistence_interceptor.go:27-93 | the converse holds throughout a run if and only if no put of the run drops a catalogued reference |
| `Merging.DedupeByID` | app/query_handler.go:305-320 | keeps the first row of every id and all rows without one, in order: every id of the input is on exactly one row of the output |
| `Merging.DedupeIdempotent` | app/query_handler.go:305-320 | deduplicating twice is deduplicating once |
| `Merging.LocalVersionKept` | app/query_handler.go:151-182 | with local rows first, the local version of every id is kept and no remote one follows |
| `Merging.OneRowPerKey` | app/service.go:2562-2599 | for every schedule of its goroutines dedupResults outputs exactly one row for every key of the input |
| `Merging.DedupResults` | app/service.go:2562-2599 | the same for the goroutines run as a loop with arbitrary choices; terminates |
| `Merging.RowKeysEqual` | app/service.go:2576-2585 | rows with an _id have one key when they have one _id, others when they hash alike; a row without an _id whose hash is the _id of another takes its key |
| `Merging.KeptIffAlone` | app/service.go:2562-2599 | a row is output whatever the schedule if and only if no other row has its key; so the local version of an id may be dropped |
| `Merging.PersistRemoteRows` | app/query_fastpath.go:75-120 | puts exactly the rows whose id is missing, without annotations; changes no stored document however the store fails, and writes nothing when none is missing |
| `Merging.PersistingAddsMissing` | app/query_fastpath.go:69-75 | changes no stored document, adds each missing id from one of its rows, and adds nothing the second time |
| `Merging.MissingDocsNext` | app/query_fastpath.go:90-110 | each row with an _id that is not stored adds its document once, in the order of the rows; no other row adds any |
| `Merging.StrippedKeepsFields` | app/query_fastpath.go:66-110 | a persisted document has every field of its row but _source and _trace |
| `Merging.InterferenceExact` | app/query_fastpath.go:69-120 | however the row-by-row checks and puts interleave with puts of others, nothing that would be stored without the rows is lost, if and only if the rows with ids that others put, and that were not stored before, carry the documents others put last |
| `Merging.LocalRowsAddNothing` | app/service.go:354-360 | rows read from the same store, annotated or not, are never missing |
| `QueryEngine.IdRouteExact` | app/query_fastpath.go:21-35 | the id lookup equals the scan on every store keyed by _id exactly when the id does not contain both a space and a dot |
| `QueryEngine.QueryLocalDB` | app/service.go:2193-2243 | for every criteria list, an answer on the id route, the index route or the scan lists exactly the documents a scan with criteriaFilter finds; a panic needs an ill-typed filter, an error a value that is not JSON |
| `QueryEngine.QueryLocalRaw` | app/query_fastpath.go:185-221 | for every criteria list, an answer has the stored bytes of exactly those documents; declines exactly an id with a space |
| `QueryEngine.LocalDocRaw` | app/query_fastpath.go:226-235 | the bytes of the document with that id, when there is one |
| `QueryCommand.LocalThenRemoteMerge` | app/service.go:3175-3196 | peers are asked exactly when local rows are excluded, fewer than one or than min_rows, or force_remote is set; otherwise the rows are the local ones, else exactly one row per key of both sides |
| `QueryCommand.ByStrategy` | app/service.go:325-348 | for every strategy, which rows are the local side, when peers are asked, and what is answered: the local rows, the peers' rows (REMOTE_ONLY), or one row per key of both sides, each one of theirs; an error exactly when REMOTE_ONLY cannot ask its peers |
| `QueryCommand.HandleQuery` | app/service.go:274-362 | for every criteria list and all options: the reply is the stored bytes, the local rows, the peers' rows, or one row per key of both sides; with the guard and a local match it carries exactly the documents of the scan, whether or not the shortcut is taken; what is persisted are documents of peers' rows with an unknown _id, one for each such _id that is not the hash of a row without one, nothing when no peer was asked; a fault exactly when REMOTE_ONLY cannot ask, a crash only on an ill-typed filter |
| `QueryCommand.AnswersAgree` | app/service.go:312-321 | the stored-bytes reply and the ordinary reply carry the same documents with the same multiplicities |
| `QueryCommand.LocalAnswerPersistsNothing` | app/service.go:354-360 | a locally answered query leaves nothing for persistRemoteRows to write |
| `QueryCommand.OptionsOverride` | app/service.go:274-306 | without options: local rows first, annotated, no minimum; given options override, an empty strategy and a minimum that is not positive count as none |
| `QueryCommand.ShownKeepsFields` | app/service.go:3137-3150 | annotating keeps every field of a row, and adds _source and _trace only on request and only where the row has none |
| `QueryCommand.FromPeersShows` | app/service.go:3154-3168 | every peer's row is shown in its place with all its fields |
| `StoreRegistry.NormaliseIdempotent` | app/service.go:4326-4332 | normalising a name twice is normalising once, and valid names are already normal |
| `StoreRegistry.TargetIs` | app/service.go:4326-4332 | a dstype stands for the store named by it without the spaces around it and in small letters, a blank one for dsswres |
| `StoreRegistry.StoreNameForm` | app/service.go:4215-4225 | valid names are a small letter or digit and 1 to 62 small letters, digits, underscores or hyphens, except four reserved ones |
| `StoreRegistry.Registry.EnsureDocStore` | app/service.go:4380-4478 | returns the store of the normalised name, opening it at its recorded address when there is one; only this store and its address are added, and written to disk when saving succeeds; an error changes nothing in memory or on disk |
| `StoreRegistry.Registry.DropDynamicStore` | app/service.go:4483-4507 | closes and forgets this open dynamic store only, on disk too when saving succeeds; built-in and unopened stores are refused unchanged |
| `StoreRegistry.Registry.Restart` | app/service.go:4514-4534 | after a crash, reopens the recorded stores that open, at the recorded addresses, in any order, without writing the configuration |
| `StoreRegistry.Registry.ResolveDocStore` | app/service.go:4326-4372 | hands out only the store registered under the normalised name, creates one only when allowed and valid, never changes anything on error, refuses contributions |
| `StoreRegistry.StoresAreDistinct` | app/service.go:4189-4193 | in every reachable registry one store never answers to two names |
| `StoreRegistry.SavedRunSynced` | app/service.go:4561-4582 | as long as saves succeed, every open dynamic store's address equals the one on disk |
| `StoreRegistry.CrashRestores` | app/service.go:4509-4534 | if saves and opens succeed, a crash between any two operations of a run brings back exactly the stores that were open, at the same addresses |
| `StoreRegistry.AddressKept` | app/service.go:4439-4478 | whatever opens and saves do, only dropping a store loses its address, in memory or on disk |
| `Capacity.ParseCapID` | app/service.go:4681-4701 | the issuing agent's segment and the UUID can be read back from a capacity id |
| `Capacity.CapIDCollision` | app/service.go:4681-4701 | two ids are equal exactly when segments and UUIDs are |
| `Capacity.DistinctIffSeparated` | app/app.go:182-195 | over all runs of any number of agents, all ids are distinct if and only if the agents' peer-id segments are |
| `Capacity.FullPeerIdsAreDistinct` | app/app.go:185-189 | with the full peer id, as configured, distinct agents never issue the same id |
| `Capacity.AgentPeerIDIsFirst` | app/service.go:4648-4664 | the agent's id is the first printable one of the host's, the configured and the raw one, as far as known, and empty when none is |
| `Capacity.Registry.GenerateCapID` | app/service.go:4648-4701 | builds the id from the first printable peer id and the UUID, none while there is no such peer id; its check for printable characters never fails |
| `Capacity.Registry.ReserveCapacity` | app/service.go:4709-4762 | an accepted request on a node with a peer id adds one new reservation under an id not in use, with provider and kind trimmed, the kind in small letters and the details as given; a refused or unsaved one adds none |
| `Capacity.Registry.AttachCDT` | app/service.go:4801-4842 | succeeds exactly for a non-empty template on a known reservation that is not released, makes it active with that template, and touches no other |
| `Capacity.Registry.ReleaseCapacity` | app/service.go:4847-4876 | succeeds exactly on known reservations, whatever their state, keeps all of the record but its status, and touches no other |
| `Capacity.RunLifecycle` | app/service.go:4709-4876 | in every run no reservation is removed or reissued, active ones have a template, and released is final |
| `PeerQuery.ParseOptions` | app/query_handler.go:204-275 | a well-typed value under options decides, else one at the top level, else the default; ill-typed values are ignored |
| `PeerQuery.OptionsTaken` | app/query_handler.go:204-288 | every option is the well-typed value under options, else the one at the top level, else the default: LOCAL_ONLY, include_local and annotate_source true, 2000 ms, no limit, no quorum; numbers lose their fraction, an empty strategy counts as none |
| `PeerQuery.ClampedIsLocal` | app/query_handler.go:401-410 | requests a handler sends, and those without options, make their receiver answer from its own replica only |
| `PeerQuery.GatherPeers` | app/query_handler.go:333-361 | lists the connected peers, then the discovered ones its comparison does not recognise, cut at the limit |
| `PeerQuery.AtMostOneRequestIff` | app/query_handler.go:333-398 | no peer gets two requests, in any order of the discovered peers, if and only if the limit ends within the connected peers or no peer that is asked is both connected and discovered |
| `PeerQuery.DiscoveryAddsNoPeer` | app/query_handler.go:376-390 | the discovered peers never add a peer to those asked |
| `PeerQuery.AskedPeers` | app/query_handler.go:333-398 | asked are exactly the connected peers, as far as the limit goes, to which a stream can be opened and that are not on the path |
| `PeerHandler.CollectUntilQuorum` | app/query_handler.go:518-541 | returns before all replies or the time budget only at the first moment quorum_n different peers have given rows, with the deduplicated rows so far |
| `PeerHandler.EarlyStopMeansQuorum` | app/query_handler.go:518-541 | an early stop means that at least quorum_n different peers have given rows |
| `PeerHandler.CollectAll` | app/query_handler.go:443-460 | merges the rows of the replies that come in time, failed ones left out |
| `PeerHandler.FanOut` | app/query_handler.go:324-460 | sends one request each time an eligible peer is listed and merges what comes back in time |
| `PeerHandler.HandleQueryStream` | app/query_handler.go:45-202 | for every message: the own rows are the tagged local documents; who is asked, exactly, and with which request; LOCAL_ONLY, unknown strategies and sufficient local rows are answered with exactly the local documents, REMOTE_ONLY with the replies that come in time, the merging strategies with own or received rows, each id of either side once; empty criteria or a query that has been here get no rows |
| `PeerHandler.ClampedAnswer` | app/query_handler.go:184-193 | a request that another handler sent is answered with exactly the local documents for its criteria, and nothing is sent on |
| `PeerHandler.RequestReads` | app/query_handler.go:401-410 | a peer reads in the request the same criteria and trace id, the path with this node added in both forms, and LOCAL_ONLY |
| `PeerHandler.RespondersAre` | app/query_handler.go:518-541 | a peer counts towards the quorum when one of its replies has a row |
| `PeerHandler.GatheredJoins` | app/query_handler.go:443-460 | the rows received are those of the replies without error, one reply after the other |
| `PeerHandler.OwnVersionWins` | app/query_handler.go:151-182 | LOCAL_THEN_REMOTE_MERGE and QUORUM never answer with a peer's version of a document the handler has |
| `PeerHandler.ParallelMergeKeepsOwnIff` | app/query_handler.go:121-149 | PARALLEL_MERGE keeps the own version of every document whichever side finishes first, if and only if for every own id the peers' first row with it is an own row |
| `PeerHandler.QueriesEnd` | app/query_handler.go:117-194 | however requests in flight are handled or lost, the number handled is bounded by a cost of the first ones that every step lowers |
| `PeerHandler.OneFurtherHop` | app/query_handler.go:400-410 | no query travels more than one hop beyond the peer it was first sent to |
| `Exchange.DocsToJSONL` | backupfunc/exchange.go:205-216 | one encoded document per line, in order |
| `Exchange.LinesOfJsonLines` | backupfunc/exchange.go:205-216 | the line codec is exact: an export's lines are the encoded documents, because encoded JSON has no raw line break (section 7 of RFC 8259) |
| `Exchange.ReadExport` | backupfunc/exchange.go:305-340 | reading an export puts the exported documents in order up to the first one of 32 MiB or more or refused by the store, and none after it |
| `Exchange.LineInFile` | backupfunc/exchange.go:317-340 | anywhere in a file, a blank line, null or a document without a text under _id is skipped and reading goes on; a line that is too long, no JSON object or refused ends it; any other line has its document put |
| `Exchange.MissingFile` | backupfunc/exchange.go:305-312 | a store of the manifest without a file is treated as one with an empty file |
| `Exchange.OpenedIs` | backupfunc/exchange.go:261-282 | a name in the manifest is that of an open store, else of the store EnsureDocStore has or opens under the normalised name |
| `Exchange.ReadWhole` | backupfunc/exchange.go:305-340 | an exported store is read to the end if and only if every document fits a line and is accepted, and then overrides what it is imported into, whatever order it was listed in |
| `Exchange.Node.ImportStoreJSONL` | backupfunc/exchange.go:305-340 | the scanner loop puts and counts exactly the documents its file gives, and fails exactly when the file is not read to the end |
| `Exchange.Node.Export` | backupfunc/exchange.go:111-160 | fails exactly when some open store holds bytes that are not JSON; else every open store is in the archive, with all its documents |
| `Exchange.Node.Import` | backupfunc/exchange.go:261-286 | every store of the manifest is imported and counted or reported, and an error never stops the loop |
| `Exchange.ImportExport` | backupfunc/exchange.go:237-286 | importing an export leaves each exported document stored as exported and all others untouched |
| `Exchange.ImportAllIs` | backupfunc/exchange.go:261-286 | importing any archive puts into each store, in order, exactly the documents of the files whose names stand for it |
| `Exchange.ReportOfExport` | backupfunc/exchange.go:237-286 | the report on it has no errors and counts for every store exactly its exported documents |
| `Exchange.ImportIdempotent` | backupfunc/exchange.go:237-286 | importing any archive twice gives the same contents as once, also where names repeat or stand for one store, documents are refused, files are missing or cut short, or stores cannot be opened |

## Left out

- HTTP, shell, STOMP, discovery, IPFS node set-up, the election, semantic and TOSCA packages, LLM clients, logging: I/O
  and library plumbing.
- The append-only log and replication: go-ipfs-log is not part of this model. An append is an outcome parameter; a failed
  append that replication delivers later is not modelled at the level of `DocumentStore`, but `WriteRoutes` and
  `GroupCommit` let a failed store call store any part of its documents.
- Locks of the index and real time: methods of the index and the registries are atomic steps; a timeout is a choice.
- The decoded-document cache, and sharing of decoded rows: rows and documents are values, so writing annotations into rows
  in place (`annotate`, `tagRows`) is modelled on values, and writes to rows shared with other readers are not captured.
- Panics inside the group-commit writer other than a failing store call (`app/group_commit.go:121-133`), and callers that
  stop waiting (`ctx.Done`).
- GroupCommit.StoreWriter.Run: arrivals during its own run are the protocol's subject, not this method's.
- WriteRoutes.PutDocumentsBatched: its group-commit route is that of one caller on an idle store; concurrent callers are the
  subject of `GroupCommit` and `CleanFailures`.
- Merging.PersistRemoteRows: its check and its puts are one step; `InterferenceExact` interleaves them with puts of others.
- LineageCoalescing.UpstreamSafeIff: documents that feed an entry matched by a reference keep their type and name
  (`RenamedReference` shows that this is needed), and the references of a version come in a fixed order, where the code
  ranges over Go maps.
- LineageCoalescing.DownstreamSafeIff: one document refers to the entry; downstream lists are compared as sets.
- Matching.MatchesCondition: NaN and infinities from `strconv.ParseFloat`, and floating-point rounding.
- Text and StoreRegistry: Unicode spaces and case folding; names are compared as ASCII.
- The stores keyed by `path` (`validations`, `kbdata`): the query and exchange theorems are about stores keyed by `_id`.
- StoreRegistry.Registry.Restart: crashes between operations only; a crash in the middle of writing the configuration file
  can truncate it, and a concurrent second writer of the file is not modelled.
- StoreRegistry.Registry.EnsureDocStore: calls before OrbitDB or the configuration are initialised.
- LineageGraph: SQLite errors, and rows that others write into the `datacatalog` table; which of several matching entries
  `resolveReferenceToURI` returns is an arbitrary choice, and the metadata extractor is represented by the type, name and
  references it yields. Operations are atomic.
- LineageGraph.RunConsistent: the converse of its edge condition is false of the code; `RunConverse` has the exact condition.
- Capacity: writes to the `kbcapacity` store that bypass the registry, clocks and expiry dates; operations are atomic.
- QueryCommand.ByStrategy: the peers' rows, with the peer each is from, and whether asking them failed are parameters; the
  query engine package is not part of this model, nor are the time budget and the quorum counting of `quorumMerge`.
- PeerHandler: the loop check on `trace_path` is modelled as coded, but no theorem rests on it, because it mixes text and
  raw ids; converting a float outside the integer range is left unspecified by Go and exact here.
- PeerHandler.CollectAll and PeerHandler.CollectUntilQuorum: a reply has the rows as its goroutine sends them on, with the
  provenance tags it put on them.
- PeerHandler.HandleQueryStream: messages that are not a JSON object are answered with no rows before its model begins.
- Exchange: the tar and gzip layers, the manifest's version check, the SQLite snapshot and its restore, and stores that lose a `Put` only sometimes.
- `fixTuplegetterQuotes`, metadata defaults, profilers and catalogs of constants: they would only add easy members.
