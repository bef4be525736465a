# Flowise core algorithms in Dafny

A Dafny model of the parts of Flowise that keep state across loops, batches, callbacks or awaits,
and proofs of what they promise.

| file | models |
|---|---|
| `Indexing.dfy`, `IndexingCounters.dfy`, `IndexingDocuments.dfy` | the incremental indexer: a record manager and a vector store kept in step over batches, with no, incremental or full cleanup; how its counters depend on the batches; and what it makes of each document, told by content and metadata |
| `ZodText.dfy`, `ZodParser.dfy`, `ZodPrinter.dfy`, `ZodRoundTrip.dfy`, `ZodArrays.dfy`, `ZodArrayEnds.dfy`, `ZodChecked.dfy`, `ZodQuotes.dfy` | the schema-string parser with its bracket scanners, a printer for parsed schemas, the round trip, what arrays of objects lose, what holds of whatever the parser returns, and the texts the printer does not write: quotes of both kinds, blanks, trailing commas, errors |
| `AudioChunker.dfy` | the rate-limited audio chunker: stream handlers and a polling consumer over one shared buffer |
| `Restructure.dfy` | message restructuring: a filter pass that rewrites contents in place, and the Mistral loop that splices into the list it walks |
| `EscapeCodec.dfy`, `EscapeInPlace.dfy`, `InputVariables.dfy`, `Crawler.dfy` | the escape codec, on strings, values and mutable objects; the brace matcher; the web crawler |
| `SignInThrottle.dfy`, `SlidingWindow.dfy`, `ThrottleClients.dfy`, `OwnerRegistration.dfy` | the failure counters of the sign-in, alone and under concurrency, and the registration of the single owner |
| `ChatImages.dfy`, `ChatImageFacts.dfy` | image references in the chat history: base64 and back, and temporary messages spliced in reverse |
| `LocalStorage.dfy`, `StorageListing.dfy` | read-repair in the local storage, file listing and sizes |

Code that changes state step by step is a class or a method with loops, and each such method is
proved equal to a function of its inputs and old state; what the code promises is proved about
that function. Functions that only compute are pinned by lemmas on fields, characters and
values written out (`HashTellsDocuments`, `ItemsReadBack`, `KeysTell`, `SamePageExactly`,
`EncodingMeans`, `ApplyRefsMean` and others), so that no result rests on a name alone.
`dafny verify dfyconfig.toml` checks everything.

## Assumptions

- Hash functions are uninterpreted. `Faithful` (documents with the same hash have the same uid and
  the same source) is assumed only where a result says so; `CollisionFreeIsFaithful` derives it
  from collision-freedom when no document brings its own uid. `CollisionFree` in
  `IndexingDocuments.dfy` asks for no more of the two hash functions than that the texts and
  dictionaries hashed for the given documents do not collide and that the hashes of contents are
  equally long; documents then hash alike exactly if content and metadata are equal.
- The record manager follows the SQLite implementation: an upsert restamps a known key and sets its
  document id but keeps its group. The database clock is a sequence of readings that need not
  increase; an update behind the start of the run fails, as in the code. The order in which
  `listKeys` returns rows, and its choice under a limit, are left open.
- A run keeps a list of its calls that change one of the stores. The list is tied to the calls:
  replaying it from the stores the run found gives the stores it leaves. "After every call" refers
  to it.
- An upsert or a deletion either happens or the run has stopped: a store call that throws half way
  is not modelled.
- `fetch`, the file-name sanitizer, the file loader, `JSON.stringify` and the sources of a document
  are functions given from outside.
- Paths in the storage are lists of sanitized names.

## What the code does differently from its comments or from what one would expect

- `getFileFromStorage` is commented to clean up empty directories, but it starts at the parent of
  the folder it took the file from, which still contains that folder; no directory is ever removed
  (`GetFileRemovesNoDirectory`). The folder stays behind empty exactly if the file was all it held
  and it is not on the way to the new path (`FolderLeftEmpty`), as in `EmptyFolderStays`.
  `streamStorageFile` starts in the right folder.
- Documents may bring their own uids. Two new ones with one uid in a batch count as two additions and make
  one key (`SharedUid`); otherwise additions and deletions account for the key count, and exactly
  then (`ConservedExactly`).
- A second full run over the same documents can delete: the keys outside the documents that were
  not stale yet when the first one began (`SecondRun`, `NothingStaleMeanwhile`, `StampedAtStart`).
- Quotes make a string around list items and keys, and keep commas and brackets together when
  properties are cut, in both kinds (`ItemsReadBack`, `KeyReadBack`, `ScanString`). An argument in
  single quotes keeps them (`SingleQuotedArgument`), and so does a value in an object literal.
- The counters of a run depend on the batch size, the final keys do not (`FinalKeysOfDocuments`).
  If documents with the same uid have the same hash, as without preset uids: additions are those of a single batch exactly if no
  batch has a document whose record the cleanup of an earlier batch removed, which only happens in
  an incremental run (`AddedIsBatchFree`, `NoneReaddedInBatch`); all counters but deletions are,
  exactly if also no document comes in two batches, which matters in every cleanup mode
  (`CountersAreBatchFree`, `WithoutSourceCleanup`). `SameAdditions` and `SameMeetings` say the same
  of all documents. `CountersDependOnBatchSize` and `CopyInNextBatch` give inputs for which they
  differ.
- A history of one message is not repaired for Mistral (`RulesAfterRestructuring`), and the branch
  for a denied Tool message at the end is never reached: the turn before has already put a Human
  message behind it.
- After an abort `onEnd` still runs exactly when the stream had ended and the buffer was empty
  (`OnEndAfterAbort`).
- A list of several arguments comes back exactly if they are numbers and strings without commas
  that do not both begin and end with a string; `("a", "b")` comes back as the one string
  `a", "b` (`ArgsComeBack`, `TwoStringsMerge`).
- An array around an object with modifiers loses these modifiers if they hold no closing brace
  (`InnerModifiersDropped`). With one, that is with an object literal as an argument
  (`BraceIsLiteral`), the greedy expression captures more than the properties
  (`CapturedExactly`). If there are properties and the last one is no object, the text then does
  not parse at all (`DroppedExactly`), for instance
  `z.array(z.object({n: z.string()}).default({a: 1}))` (`DefaultBreaksArray`). Without properties,
  or if the last one is an object with modifiers, the modifiers may still be dropped
  (`EmptyObject`, `EndsInObject`), for instance of `z.array(z.object({}).default({}))`
  (`EmptyLiteralDropped`).
- Adding, reverting and adding the images of the assistant again inserts nothing exactly if
  reverting hides no image that was shown (`SecondAddInsertsNothing`). Reverting can hide one if an
  item names it but the item's reference leads to another file (`HiddenImageIsAddedAgain`).
- The escape codec restores exactly the strings without FLOWISE_ tokens (`RoundTrip`).
- The fixed windows of the throttle allow 2 * MAX_FAILURES - 1 failures in a single millisecond
  (`BoundIsReached`) and never more within a window length (`SlidingWindowBound`).
- `_batch` with a size below 1 makes batches of one; a `cleanupBatchSize` of 0 means no limit; a
  negative crawl limit means none.

## Model

| member | source | states |
|---|---|---|
| Indexing.BatchesPartition | packages/components/src/indexing.ts:175-193 | for every size, also below 1, batching loses, repeats and reorders nothing, no batch is empty or too long and only the last may be short |
| Indexing.BatchesUnique | packages/components/src/indexing.ts:175-193 | there is only one list of batches with these properties |
| Indexing.Batch | packages/components/src/indexing.ts:175-193 | the loop produces that list |
| Indexing.DedupKeepsEachHashOnce | packages/components/src/indexing.ts:195-210 | deduplication keeps every hash, each once, and only given documents |
| Indexing.DeduplicateInOrder | packages/components/src/indexing.ts:195-210 | the loop with its `seen` set keeps the first document of each hash in input order |
| Indexing.DedupUidsAndGroups | packages/components/src/indexing.ts:195-222 | under faithful hashing deduplication changes neither the uids nor the sources of a batch |
| Indexing.DedupDistinctUids | packages/components/src/indexing.ts:98-102 | if documents with the same uid have the same hash, as without preset uids, a deduplicated batch names no uid twice |
| Indexing.CollisionFreeIsFaithful | packages/components/src/indexing.ts:77-120 | collision-free hashing of documents without preset uids is faithful, for every kind of source key |
| IndexingDocuments.UidIsHash | packages/components/src/indexing.ts:77-120 | a document without a preset uid goes by the hash of its content hash followed by its metadata hash, one with a preset uid by that |
| IndexingDocuments.HashTellsDocuments | packages/components/src/indexing.ts:77-120 | if the hash functions do not collide on the texts and dictionaries at hand and content hashes are equally long: documents hash alike exactly if content and metadata are equal |
| IndexingDocuments.DedupFirsts | packages/components/src/indexing.ts:195-210 | deduplication keeps, in input order, exactly the documents with no earlier one of the same hash |
| IndexingDocuments.DedupTellsDocuments | packages/components/src/indexing.ts:195-210 | without preset uids a deduplicated batch holds every given document, and any two it holds differ in content or metadata; there are as many as different documents |
| IndexingDocuments.KeysApart | packages/components/src/indexing.ts:98-102 | two documents share a key exactly if content and metadata are equal |
| IndexingDocuments.KeysExactly | packages/components/src/indexing.ts:257-378 | the keys of both stores after a run that returned: one for each document, and of the old ones all without cleanup, the fresh ones in a full run, and in an incremental one all but the stale ones whose group some document names as its source |
| IndexingDocuments.DocumentsStored | packages/components/src/indexing.ts:297-336 | under the key of each document: a stamp not before the start, its `docId`, for a new key its source, and in the vector store its content and metadata if the key is new or under `forceUpdate` |
| IndexingDocuments.OthersUntouched | packages/components/src/indexing.ts:281-366 | under every other key both stores hold what they held before, or nothing |
| IndexingDocuments.OneKeyEach | packages/components/src/indexing.ts:257-378 | a run over empty stores leaves as many keys as there are different documents, whatever the batches |
| IndexingDocuments.AdditionsExactly | packages/components/src/indexing.ts:297-331 | without cleanup by source a run counts one addition for each different document whose key has no record, whatever the batches |
| IndexingDocuments.AddedDocuments | packages/components/src/indexing.ts:322-331 | the documents reported as added are given ones with their content and metadata, as many as additions and updates, and every new one is among them |
| Indexing.KeptUidsAndGroups | packages/components/src/indexing.ts:281-286 | the uids and sources a run keeps do not depend on how its documents are batched |
| Indexing.FinalKeysOfDocuments | packages/components/src/indexing.ts:281-366 | hence the final keys are those of the whole document list, for every batch size and cleanup mode |
| Indexing.FinalKeysOfStaleStore | packages/components/src/indexing.ts:338-366 | over old records stamped before the run: a full run leaves exactly the uids of the documents, an incremental one these and the old keys whose group was not seen |
| Indexing.RecordsEffectCompose | packages/components/src/indexing.ts:283-350 | effects of consecutive batches on the record manager add up, although a later batch may re-add what an earlier one deleted |
| Indexing.DocsEffectCompose | packages/components/src/indexing.ts:322-331 | so do the effects on the vector store: every document there is old and untouched or one of the kept documents |
| Indexing.OriginsEffectCompose | packages/components/src/indexing.ts:333-336 | so do the document ids and groups: a record's group is its old one or the source of a kept document with its uid |
| Indexing.RecordManager.GetTime | packages/components/nodes/recordmanager/SQLiteRecordManager/SQLiteRecordManager.ts:224-237 | returns the next reading of the clock |
| Indexing.RecordManager.Exists | packages/components/nodes/recordmanager/SQLiteRecordManager/SQLiteRecordManager.ts:287-323 | for every key, in order, whether it has a record |
| Indexing.RecordManager.Update | packages/components/nodes/recordmanager/SQLiteRecordManager/SQLiteRecordManager.ts:239-285 | fails without effect exactly if there are keys and the clock is behind `timeAtLeast`; otherwise upserts the keys one after the other, and without keys does nothing |
| Indexing.UpsertEffect | packages/components/nodes/recordmanager/SQLiteRecordManager/SQLiteRecordManager.ts:265-278 | an upsert adds and stamps exactly the given keys, keeps the group of known keys and touches no other record |
| Indexing.UpsertOrigins | packages/components/nodes/recordmanager/SQLiteRecordManager/SQLiteRecordManager.ts:265-278 | every written record has the document id, and every new one the group, given with its key |
| Indexing.RecordManager.ListKeys | packages/components/nodes/recordmanager/SQLiteRecordManager/SQLiteRecordManager.ts:325-376 | distinct keys of matching rows: all of them without a limit, none only if there are none |
| Indexing.RecordManager.DeleteKeys | packages/components/nodes/recordmanager/SQLiteRecordManager/SQLiteRecordManager.ts:378-401 | removes exactly the given keys |
| Indexing.PutAllEffect | packages/components/src/indexing.ts:323 | adding documents under ids adds exactly these keys, with one of the documents given for each, and leaves the others |
| Indexing.Classify | packages/components/src/indexing.ts:299-315 | the pass over a batch splits it, in order, into documents to add and documents to restamp, and collects the known uids to be counted as updates |
| Indexing.ToIndexEffect | packages/components/src/indexing.ts:303-315 | the uids to add are all of the batch under `forceUpdate`, else those without a record |
| Indexing.ToIndexCount | packages/components/src/indexing.ts:329-330 | how many documents are added: one for every new uid, under `forceUpdate` also one for every known one, and those that come under a uid another one has |
| Indexing.Indexer.StoreBatch | packages/components/src/indexing.ts:297-336 | the two record updates and the addition of one batch, with the groups and stamps they write and the exact counters and documents added; the list of calls grows by a restamping, if any, and an addition followed by its update; after every one of them every fresh record is backed by a document, and after the updates both stores have the same keys |
| Indexing.BatchStored | packages/components/src/indexing.ts:297-336 | what these writes amount to for the two stores and the counters |
| Indexing.Indexer.DeleteKeys | packages/components/src/indexing.ts:346-347 | the calls are exactly a deletion of the keys from the vector store and then one from the record manager; for stale keys no fresh record is without its document after either, and the key sets are equal after both |
| Indexing.Indexer.CleanSources | packages/components/src/indexing.ts:338-349 | fails exactly on a missing or empty source id; else removes from both stores exactly the stale keys of the seen sources and counts them |
| Indexing.Indexer.CleanAll | packages/components/src/indexing.ts:352-366 | for every limit the rounds end, and together remove from both stores exactly the stale keys and count them |
| Indexing.CleanRound | packages/components/src/indexing.ts:357-365 | a round removes stale keys only, and fewer stale keys are left after a round that removed any |
| Indexing.Indexer.IndexBatch | packages/components/src/indexing.ts:283-350 | one turn of the loop: its effect on both stores, its exact counters, deletions included, and added documents; and it fails only on a batch that breaks a rule, with the error that says which, or with the clock gone back behind the start |
| Indexing.Indexer.IndexBatches | packages/components/src/indexing.ts:281-350 | the whole loop, over any list of batches: effect, key count from the counters, exact tally, and which inputs or clocks stop it with which error |
| Indexing.Indexer.Index | packages/components/src/indexing.ts:257-378 | a run that returns leaves exactly the final keys in both stores, stamps, groups and documents as the kept documents say, counters from which the change of the key count follows (additions without those beyond the first under one uid in a batch, minus deletions), the exact tally and the documents added; replaying the calls of any run, returned or failed, gives the stores it leaves, every call leaves fresh records backed, every call on the record manager leaves both stores with the same keys, and in a run that returns each change of the vector store is followed by its change of the records; with a clock that never falls behind its reading at the start a run returns exactly for inputs that break no rule; otherwise the error says which rule was broken, and a missing source key stops it before any call |
| Indexing.KnownAreKeys | packages/components/src/indexing.ts:297 | which keys have a record before a batch follows from the input alone, whatever the clock |
| Indexing.NothingAdded | packages/components/src/indexing.ts:303-331 | a run without cleanup by source over known uids adds no document, under whatever uids |
| IndexingCounters.ConservedExactly | packages/components/src/indexing.ts:281-378 | for every run that returns: additions minus deletions are the change of the key count exactly if no batch adds two documents under one uid |
| IndexingCounters.NothingTwice | packages/components/src/indexing.ts:98-120 | no batch does, and none restamps two under one uid, if documents with the same uid have the same hash |
| IndexingCounters.SharedUid | packages/components/src/indexing.ts:322-331 | two new documents with one preset uid in a batch: two additions, one new key |
| IndexingCounters.TallyExactly | packages/components/src/indexing.ts:281-350 | for all documents, every list of batches and every mode: additions are the new uids, those that an earlier cleanup had removed, and the documents added under a uid of their batch again; updates and skips are the known uids and the repeated ones without the removed ones, and the documents restamped under a uid of their batch again; all updates under `forceUpdate` and all skips otherwise |
| IndexingCounters.OneBatch | packages/components/src/indexing.ts:281-350 | all documents in one batch: additions are the new uids, updates and skips the known ones, each with the documents under a uid that another one has |
| IndexingCounters.SameAdditions | packages/components/src/indexing.ts:297-331 | for all documents with faithful uids and every batch size: the additions are those of a single batch exactly if the batches add as many documents again or under one uid as that does |
| IndexingCounters.SameMeetings | packages/components/src/indexing.ts:297-331 | and the updates and skips exactly if as many more documents come again or under one uid |
| IndexingCounters.AddedIsBatchFree | packages/components/src/indexing.ts:297-331 | if documents with the same uid have the same hash: the additions are the same exactly if no batch has a document that the cleanup of an earlier one removed |
| IndexingCounters.MetIsBatchFree | packages/components/src/indexing.ts:297-331 | then the skips and updates are the same, exactly if as many documents come again in a later batch as are added again |
| IndexingCounters.CountersAreBatchFree | packages/components/src/indexing.ts:281-350 | and all counters but deletions, exactly if no document is added again and none comes in two batches |
| IndexingCounters.NoneReaddedInBatch | packages/components/src/indexing.ts:338-350 | a batch adds nothing again exactly if each of its stale records whose group an earlier batch saw was in an earlier batch |
| IndexingCounters.WithoutSourceCleanup | packages/components/src/indexing.ts:297-366 | then, without cleanup by source, additions never depend on the batches, and the other counters only on repeated documents |
| IndexingCounters.CountersDependOnBatchSize | packages/components/src/indexing.ts:281-350 | two indexed documents of one source: skipped in one batch; in two batches the second is deleted and added again |
| IndexingCounters.CopyInNextBatch | packages/components/src/indexing.ts:281-331 | one document given twice, nothing indexed, no cleanup by source: nothing is skipped in one batch, one in two batches |
| Indexing.OneRejected | packages/components/src/indexing.ts:80-86 | one batch that breaks a rule makes the input unacceptable |
| IndexingDocuments.AcceptedExactly | packages/components/src/indexing.ts:79-86 | the input is acceptable exactly if no metadata has one of the keys `hash_`, `content_hash` and `metadata_hash` and, for an incremental run, there is a source key and every document names a non-empty source |
| IndexingDocuments.BlamedMeans | packages/components/src/indexing.ts:261-342 | what each error says of the documents and options |
| IndexingDocuments.SourceOfField | packages/components/src/indexing.ts:212-222 | a source is null where the field holds null and undefined where there is no such field |
| IndexingDocuments.SafeMeans | packages/components/src/indexing.ts:281-366 | after each call of a run every record stamped by it has its document, and after each call on the records the key sets are equal |
| IndexingDocuments.SettledMeans | packages/components/src/indexing.ts:322-350 | in a run that returned each addition is followed by an update of the records, and each deletion from the vector store by the deletion of the same keys from the records, which happens nowhere else |
| Indexing.SecondRun | packages/components/src/indexing.ts:352-378 | a second full run over the same documents adds and updates nothing, whatever the clock and the old stamps, and deletes exactly the old keys that became stale between the two starts |
| Indexing.NothingStaleMeanwhile | packages/components/src/indexing.ts:352-366 | so it deletes nothing exactly if every old key outside the documents that is stale at the second start was stale at the first |
| Indexing.StampedAtStart | packages/components/src/indexing.ts:352-366 | an input for which it deletes a key: one stamped when the first run began, and a second run a second later |
| Indexing.IndexTwice | packages/components/src/indexing.ts:257-378 | the two runs in a row, with the counters and the key count the second one reports |
| ZodParser.SplitProperties | packages/components/src/secureZodParser.ts:91-126 | the character loop cuts the text at its top-level commas as the recursive scan does |
| ZodParser.PiecesAreShort | packages/components/src/secureZodParser.ts:91-126 | no piece is longer than the text, which is why the recursive descent ends |
| ZodParser.ParseArrayContent | packages/components/src/secureZodParser.ts:330-359 | the character loop cuts list items as the recursive scan does (what that gives for quotes of both kinds: `ItemsReadBack`) |
| ZodParser.FindArrayEnd | packages/components/src/secureZodParser.ts:361-376 | finds the end of the parenthesis that opens behind the start, or -1 |
| ZodParser.FindObjectEnd | packages/components/src/secureZodParser.ts:412-435 | finds the parenthesis that closes the object, or -1 |
| ZodParser.ReadArrayModifiers | packages/components/src/secureZodParser.ts:389-407 | the loop over the parts behind an array returns their calls in order, or the error of the first that is no allowed call |
| ZodParser.ReadObjectModifiers | packages/components/src/secureZodParser.ts:448-490 | the index loop behind an object reads the chain of calls as the recursive specification does, ends on every text, and stops where no name follows |
| ZodParser.ExtractArrayWithModifiers | packages/components/src/secureZodParser.ts:361-410 | both loops together cut an array type from its modifiers |
| ZodParser.ExtractObjectWithModifiers | packages/components/src/secureZodParser.ts:412-493 | both loops together cut an object type from its modifiers; a dot without a modifier counts as none |
| ZodParser.ParseObjectProperties | packages/components/src/secureZodParser.ts:75-89 | the loop over the pieces collects their properties, or returns the first error |
| ZodPrinter.ScanDoc | packages/components/src/secureZodParser.ts:91-126 | splitting keeps every well-nested text in one piece, at any depth and before any rest |
| ZodPrinter.CloseDoc | packages/components/src/secureZodParser.ts:363-376 | the search for a closing parenthesis passes over every well-nested text |
| ZodPrinter.EndDoc | packages/components/src/secureZodParser.ts:412-435 | so does the search for the end of an object, inside its braces |
| ZodPrinter.SplitJoin | packages/components/src/secureZodParser.ts:91-126 | splitting joined pieces gives back the pieces |
| ZodText.NatRoundTrip | packages/components/src/secureZodParser.ts:313-315 | every natural number is read back from its decimal digits |
| ZodPrinter.ListRoundTrip | packages/components/src/secureZodParser.ts:330-359 | a printed list of strings is read back item by item |
| ZodPrinter.ValueRoundTrip | packages/components/src/secureZodParser.ts:527-540 | a printed number, string or list is recognized and read back |
| ZodPrinter.LiteralRoundTrip | packages/components/src/secureZodParser.ts:510-544 | so is a printed object literal, with its keys in order |
| ZodPrinter.ArgsRoundTrip | packages/components/src/secureZodParser.ts:303-328 | printed arguments are read back, by the simple and the complex argument parser: none or one of any kind, or several numbers and strings without commas that do not begin and end with a string |
| ZodPrinter.ScalarsRoundTrip | packages/components/src/secureZodParser.ts:320-327 | several printed numbers and strings without commas are read back by the cut at the commas |
| ZodPrinter.ArgsComeBack | packages/components/src/secureZodParser.ts:303-328 | of all lists of printable arguments, of any length and kind, exactly these come back |
| ZodPrinter.StringsMerge | packages/components/src/secureZodParser.ts:316-318 | two or more arguments that begin and end with a string come back as one string |
| ZodPrinter.TwoStringsMerge | packages/components/src/secureZodParser.ts:316-318 | any two strings come back as one, with the quotes and the comma between them |
| ZodRoundTrip.BaseModifiersRoundTrip | packages/components/src/secureZodParser.ts:194-230 | the chained calls behind a base type are read back in order |
| ZodRoundTrip.ArrayModifiersRoundTrip | packages/components/src/secureZodParser.ts:389-407 | so are the modifiers behind an array |
| ZodRoundTrip.ObjectModifiersRoundTrip | packages/components/src/secureZodParser.ts:448-490 | so are the modifiers behind an object, with object literals as arguments |
| ZodRoundTrip.ContentBefore | packages/components/src/secureZodParser.ts:66-71 | the greedy expression captures exactly the printed properties, whatever brace-free text follows the object |
| ZodRoundTrip.ExtractPrintedObject | packages/components/src/secureZodParser.ts:412-493 | a printed object is cut from its modifiers at the right place and these are read back |
| ZodRoundTrip.ExtractPrintedArray | packages/components/src/secureZodParser.ts:361-410 | so is a printed array |
| ZodRoundTrip.BaseRoundTrip | packages/components/src/secureZodParser.ts:189-232 | a printed base type with arguments and modifiers is read back |
| ZodRoundTrip.SchemaRoundTrip | packages/components/src/secureZodParser.ts:138-273 | parsing the printed form of any type in the fragment, nested as deep as one likes, gives back the type |
| ZodRoundTrip.PropsRoundTrip | packages/components/src/secureZodParser.ts:75-136 | so for lists of properties |
| ZodRoundTrip.RoundTrip | packages/components/src/secureZodParser.ts:57-73 | parsing the printed schema gives back exactly its properties in order |
| ZodRoundTrip.PrintInjective | packages/components/src/secureZodParser.ts:57-273 | schemas with the same printed text are equal |
| ZodArrays.InnerModifiersDropped | packages/components/src/secureZodParser.ts:244-264 | an array around an object whose printed modifiers hold no closing brace is read as an array of objects without them; the text comes back exactly if there were none |
| ZodArrays.BraceIsLiteral | packages/components/src/secureZodParser.ts:510-544 | printed modifiers hold a closing brace exactly if one of them has an object literal as its argument |
| ZodArrays.CapturedExactly | packages/components/src/secureZodParser.ts:244-264 | the greedy expression captures exactly the properties of the object if and only if its modifiers hold no closing brace |
| ZodArrays.CapturedWithBrace | packages/components/src/secureZodParser.ts:244-264 | otherwise it captures the modifiers up to the closing brace of the last object literal as well |
| ZodArrays.ScanSwallowed | packages/components/src/secureZodParser.ts:91-126 | wherever splitting cuts the captured modifiers, the piece ends in a call without its closing parenthesis |
| ZodArrays.BrokenType | packages/components/src/secureZodParser.ts:138-232 | no text that ends in such a part, other than one that starts with an object, is a type |
| ZodArrays.LiteralBreaksArray | packages/components/src/secureZodParser.ts:244-264 | hence the array is a parse error if the modifiers hold a closing brace and there is a last property that is no object |
| ZodArrays.DroppedExactly | packages/components/src/secureZodParser.ts:244-264 | for non-empty properties that do not end in an object, the array of objects without the inner modifiers comes out if and only if these hold no closing brace |
| ZodArrays.DefaultBreaksArray | packages/components/src/secureZodParser.ts:244-264 | `z.array(z.object({n: z.string()}).default({a: 1}))` is a parse error |
| ZodArrayEnds.SwallowedFine | packages/components/src/secureZodParser.ts:91-136 | of the pieces that the captured modifiers are cut into, each with a colon fails to parse |
| ZodArrayEnds.EmptyObject | packages/components/src/secureZodParser.ts:244-264 | for an object without properties whose modifiers hold a brace: the empty array of objects comes out if the captured text has no colon, else a parse error |
| ZodArrayEnds.EmptyLiteralDropped | packages/components/src/secureZodParser.ts:244-264 | for instance it comes out of `z.array(z.object({}).default({}))` |
| ZodArrayEnds.ObjectIgnoresRest | packages/components/src/secureZodParser.ts:138-156 | an object with modifiers is read as it is whatever follows, if this begins with a closing brace |
| ZodArrayEnds.EndsInObject | packages/components/src/secureZodParser.ts:244-264 | for properties that end in an object with modifiers: they all come out if no captured piece behind them has a colon, else a parse error |
| ZodArrayEnds.ObjectTakesBrace | packages/components/src/secureZodParser.ts:138-156 | an object without modifiers takes in the closing brace and parenthesis behind it: its own properties are read with these at their end |
| ZodChecked.ObjectModifiersAllowed | packages/components/src/secureZodParser.ts:448-490 | for every text, modifiers read behind an object are on the list of allowed names |
| ZodChecked.ArrayModifiersAllowed | packages/components/src/secureZodParser.ts:389-407 | so are modifiers read behind an array |
| ZodChecked.PutKeys | packages/components/src/secureZodParser.ts:81-86 | storing a property keeps all other keys and no key twice |
| ZodChecked.ParsedIsChecked | packages/components/src/secureZodParser.ts:138-301 | for every text, a type that is returned has, at every depth, distinct non-empty keys, allowed modifiers behind arrays and objects, only validated types inside arrays of objects, and no plain object directly inside a simple array |
| ZodChecked.ParsedSchemaIsChecked | packages/components/src/secureZodParser.ts:57-89 | so for whole schemas |
| ZodChecked.AllowedNames | packages/components/src/secureZodParser.ts:7-21 | exactly thirteen names are allowed |
| ZodChecked.ValidatesExactly | packages/components/src/secureZodParser.ts:275-301 | a type passes validation exactly if every base type and every modifier of one, at any depth, has an allowed name |
| ZodQuotes.TrimBlanks | packages/components/src/secureZodParser.ts:91-134 | trimming takes exactly the blanks and line ends around a visible text |
| ZodQuotes.ScanString | packages/components/src/secureZodParser.ts:98-111 | a string in single or in double quotes stays in one piece at any depth, whatever commas, brackets, quotes of the other kind and escaped quotes it holds |
| ZodQuotes.SplitTexts | packages/components/src/secureZodParser.ts:91-126 | a text cut at its commas outside strings of both kinds and brackets: all pieces trimmed and in order, the last one only if it is not blank |
| ZodQuotes.ItemsReadBack | packages/components/src/secureZodParser.ts:330-359 | a list of items, each in single quotes, in double quotes or bare, with blanks around it, is read back item by item, commas and escaped quotes inside quotes included |
| ZodQuotes.KeyReadBack | packages/components/src/secureZodParser.ts:132 | a key in single quotes, double quotes or none, with blanks around it, is the bare key |
| ZodQuotes.EntryReadBack | packages/components/src/secureZodParser.ts:128-136 | a property is stored under the bare key, however it is written, with the type behind the first colon, or fails as the type does |
| ZodQuotes.NothingStored | packages/components/src/secureZodParser.ts:83-85 | a piece without a colon is no property and no field of an object literal |
| ZodQuotes.PutMeans | packages/components/src/secureZodParser.ts:84 | a repeated key keeps its place and takes the last type, a new one comes last |
| ZodQuotes.PutFieldMeans | packages/components/src/secureZodParser.ts:523-541 | so with the fields of an object literal |
| ZodQuotes.ContentBetween | packages/components/src/secureZodParser.ts:66-71 | the text between the braces is captured whatever it holds, with blanks around the braces |
| ZodQuotes.SchemaReadBack | packages/components/src/secureZodParser.ts:56-136 | a schema whose keys stand in any quotes, with blanks between all parts and with or without a comma behind the last property: the bare keys in order, each with what its type parses to |
| ZodQuotes.QuotedKeysRoundTrip | packages/components/src/secureZodParser.ts:56-136 | all printable properties come back, whichever of their keys stand in which quotes |
| ZodQuotes.EnumReadBack | packages/components/src/secureZodParser.ts:194-222 | an enumeration comes back with its values, whichever of them stand in which quotes |
| ZodQuotes.SingleQuotedArgument | packages/components/src/secureZodParser.ts:316-327 | an argument or value in single quotes keeps them |
| ZodQuotes.PlainArgument | packages/components/src/secureZodParser.ts:320-327 | an argument that is no number, string or list is taken as it stands |
| ZodQuotes.ArgumentBlanks | packages/components/src/secureZodParser.ts:305-306 | blanks inside the parentheses do not count |
| ZodQuotes.NumbersMean | packages/components/src/secureZodParser.ts:313-315 | a number is read digit by digit in base ten |
| ZodQuotes.CallsExactly | packages/components/src/secureZodParser.ts:206-224 | behind a name of letters, digits and underscores a part is a call exactly if nothing follows or parentheses around a text of one line |
| ZodQuotes.BareBase | packages/components/src/secureZodParser.ts:194-222 | a base type without parentheses has no arguments, whatever blanks stand around its parts |
| ZodQuotes.BlanksAroundModifier | packages/components/src/secureZodParser.ts:196-226 | nor do blanks count around the modifiers of a base type |
| ZodQuotes.NotZodAtAll | packages/components/src/secureZodParser.ts:198-203 | what does not begin with `z` and a dot is refused |
| ZodQuotes.ModifierErrors | packages/components/src/secureZodParser.ts:390-402 | a part behind an array that is no call, or a call of another name, is refused with the error for it |
| ZodQuotes.UnknownObjectModifier | packages/components/src/secureZodParser.ts:480-482 | so is a call of another name behind an object |
| ZodQuotes.OpenArguments | packages/components/src/secureZodParser.ts:460-478 | behind an object a parenthesis that is never closed makes no arguments and ends the chain of calls |
| ZodQuotes.DotMayBeMissing | packages/components/src/secureZodParser.ts:486-489 | and behind closed parentheses the dot before the next call may be missing |
| ZodQuotes.OnlyObjects | packages/components/src/secureZodParser.ts:60-69 | a text that does not begin with an object, or holds no closing brace, is no schema |
| ZodQuotes.ObjectIsSearched | packages/components/src/secureZodParser.ts:66 | the object may begin anywhere in the searched text |
| ZodQuotes.WholeWithoutModifiers | packages/components/src/secureZodParser.ts:432-493 | where no modifier is read the whole text is searched, not the part up to the end of the object or array |
| ZodQuotes.ArrayBlanks | packages/components/src/secureZodParser.ts:237-242 | blanks inside the parentheses of an array do not count |
| ZodQuotes.OpenArray | packages/components/src/secureZodParser.ts:237-240 | an array without its last parenthesis is refused |
| AudioChunker.Chunker.OnData | packages/components/src/textToSpeech.ts:171-175 | appends the chunk unless aborted |
| AudioChunker.Chunker.OnEnd | packages/components/src/textToSpeech.ts:177-179 | marks the end and changes nothing else |
| AudioChunker.Chunker.OnError | packages/components/src/textToSpeech.ts:181-183 | rejects a promise still pending and changes nothing else |
| AudioChunker.Chunker.OnAbort | packages/components/src/textToSpeech.ts:186-192 | the signal fires once and rejects a promise still pending |
| AudioChunker.Chunker.ProcessChunks | packages/components/src/textToSpeech.ts:140-169 | the consumer from one resumption to its next await or its end is one `Tick` of the transition system |
| AudioChunker.BytesConserved | packages/components/src/textToSpeech.ts:140-175 | on every interleaving, aborted or not, emitted bytes and buffer together are the accepted bytes in order |
| AudioChunker.RunShape | packages/components/src/textToSpeech.ts:140-169 | on every interleaving all chunks but a last, non-empty one have the target size, and `onEnd` runs at most once, exactly when the consumer finishes |
| AudioChunker.WellCutIsCut | packages/components/src/textToSpeech.ts:152-159 | there is only one way to cut bytes like that |
| AudioChunker.NothingLeft | packages/components/src/textToSpeech.ts:140-179 | without data after the end a finished consumer leaves nothing in the buffer |
| AudioChunker.ScheduleIndependence | packages/components/src/textToSpeech.ts:137-194 | without an abort, every schedule that finishes has delivered the same chunks, the input cut into pieces, and called `onEnd` once |
| AudioChunker.OverIsOver | packages/components/src/textToSpeech.ts:140-169 | once the consumer has finished or stopped, whatever happens, no chunk is delivered and `onEnd` is not called again: `onEnd` comes after every chunk |
| AudioChunker.CleanRunResolves | packages/components/src/textToSpeech.ts:167-168 | without abort and stream error the promise is resolved exactly when the consumer has finished |
| AudioChunker.AbortFreezes | packages/components/src/textToSpeech.ts:143-150 | after an abort nothing is emitted or accepted any more |
| AudioChunker.OnEndAfterAbort | packages/components/src/textToSpeech.ts:141-168 | after an abort `onEnd` runs exactly if the stream had ended and the buffer was empty |
| AudioChunker.SettledOnce | packages/components/src/textToSpeech.ts:140-194 | the first settlement of the promise is the last, whatever follows |
| AudioChunker.RejectedForGood | packages/components/src/textToSpeech.ts:181-192 | an abort or a stream error that finds the promise pending rejects it for good |
| AudioChunker.Drains | packages/components/src/textToSpeech.ts:140-169 | an ended stream needs one consumer turn more than there are full pieces, and no fewer |
| AudioChunker.AfterTurns | packages/components/src/textToSpeech.ts:140-169 | whatever else comes between, but no data and no abort: behind the end each turn takes one full piece, and the turn after the last one finishes |
| AudioChunker.TurnDelivers | packages/components/src/textToSpeech.ts:152-156 | a turn with a full piece in the buffer delivers it and keeps the rest, whether or not the stream has ended |
| AudioChunker.TurnWaits | packages/components/src/textToSpeech.ts:161-168 | a turn of a running stream without a full piece delivers nothing and keeps everything |
| AudioChunker.EachTurnDelivers | packages/components/src/textToSpeech.ts:140-169 | progress before the end: from every state that runs unaborted, over any events without abort, turns no more than there were full pieces have delivered exactly as many further pieces, the next bytes in order, and all other bytes are in the buffer |
| AudioChunker.FinishesOnEverySchedule | packages/components/src/textToSpeech.ts:137-194 | on every schedule without abort and without data behind the end, cut anywhere behind the end: the consumer has finished exactly if it had at the cut, or has had more turns since than there were full pieces in the buffer |
| AudioChunker.PiecesIsQuotient | packages/components/src/textToSpeech.ts:152-154 | the number of full pieces is the integer quotient |
| AudioChunker.ZeroSizeNeverFinishes | packages/components/src/textToSpeech.ts:152-156 | with a target size of 0 the consumer of an ended stream with bytes left never finishes |
| AudioChunker.NeverEndedNeverFinishes | packages/components/src/textToSpeech.ts:141-161 | nor does that of a stream that never ends and is not aborted, also after a stream error |
| Restructure.FilterPass | packages/components/nodes/sequentialagents/commonUtils.ts:226-235 | keeps string contents and those of messages with tool calls, in order, rewrites exactly the latter in place, and touches no other message |
| Restructure.RepairMeetsRules | packages/components/nodes/sequentialagents/commonUtils.ts:241-269 | no Tool message directly before a Human one and no AI or Tool message at the end of the repaired list |
| Restructure.RepairLength | packages/components/nodes/sequentialagents/commonUtils.ts:246-269 | a repair adds at most one message per Tool message and one at the end |
| Restructure.RepairFixedPoints | packages/components/nodes/sequentialagents/commonUtils.ts:246-269 | exactly the acceptable lists need no repair |
| Restructure.RepairIdempotent | packages/components/nodes/sequentialagents/commonUtils.ts:246-269 | a second pass over the kinds adds nothing |
| Restructure.RulesAfterRestructuring | packages/components/nodes/sequentialagents/commonUtils.ts:246-269 | the rules hold afterwards except for a single message that needs an answer |
| Restructure.Turn | packages/components/nodes/sequentialagents/commonUtils.ts:248-268 | one turn, whichever branch it takes, moves one step on towards the same final list and only inserts |
| Restructure.RepairLoop | packages/components/nodes/sequentialagents/commonUtils.ts:247-269 | the loop ends although it grows the list, its kinds are the repaired ones, and without the inserted messages it is the input |
| Restructure.RepairForMistral | packages/components/nodes/sequentialagents/commonUtils.ts:246-269 | lists of two or more are repaired by fresh messages with the right contents, shorter ones returned as they are |
| Restructure.RestructureMessages | packages/components/nodes/sequentialagents/commonUtils.ts:224-284 | the result for Mistral, with the contents of the inserted messages, for Anthropic and for other models, and which contents changed in the given state |
| Restructure.RulesMean | packages/components/nodes/sequentialagents/commonUtils.ts:241-245 | the rules: no Tool message directly before a Human one, and the last message neither AI nor Tool |
| Restructure.SeparateJoined | packages/components/nodes/sequentialagents/commonUtils.ts:258-261 | where two parts of a list meet, one AI message comes between them exactly if a Tool message meets a Human one |
| Restructure.RepairMeans | packages/components/nodes/sequentialagents/commonUtils.ts:246-269 | behind that, an AI message at the end is followed by a Human one, a Tool message by an AI and a Human one, and lists of one stay |
| Restructure.InsertedMeans | packages/components/nodes/sequentialagents/commonUtils.ts:258-267 | inserted messages are AI messages that say the tools were executed, and one Human message at the end with the content it answers or, if that is empty, a request to answer the question |
| Restructure.FilteredInOrder | packages/components/nodes/sequentialagents/commonUtils.ts:226-235 | the filter keeps, in order, exactly the messages with a string or with tool calls |
| Restructure.RewrittenMeans | packages/components/nodes/sequentialagents/commonUtils.ts:228-230 | with tool calls every content but the empty string is turned into a string, also one that is a string already |
| Restructure.WithoutInOrder | packages/components/nodes/sequentialagents/commonUtils.ts:246-269 | what is left without the inserted messages is the other messages in order |
| Restructure.AnthropicMeans | packages/components/nodes/sequentialagents/commonUtils.ts:270-281 | for Anthropic only an AI message at the start is replaced, by a Human one with its content |
| EscapeCodec.HandleEscapesJSONParse | packages/components/src/utils.ts:706-711 | the loop over the table makes the seven passes in order, either way |
| EscapeCodec.NoStartInside | packages/components/src/utils.ts:695-703 | no token begins inside another one |
| EscapeCodec.NoCrossing | packages/components/src/utils.ts:695-703 | no token begins in literal text and ends in the text of another token |
| EscapeCodec.ForwardPasses | packages/components/src/utils.ts:706-711 | the forward passes replace every character on its own, although each pass runs over the output of the last |
| EscapeCodec.ReversePasses | packages/components/src/utils.ts:706-711 | each reverse pass removes exactly its own tokens and those that were in the text before |
| EscapeCodec.DecodeAfterEncode | packages/components/src/utils.ts:706-711 | for every string, decoding what was encoded is decoding the original |
| EscapeCodec.DecodeShrinks | packages/components/src/utils.ts:706-711 | decoding changes a string exactly if it contains a token, and then shortens it |
| EscapeCodec.RoundTrip | packages/components/src/utils.ts:706-711 | the round trip restores exactly the strings without a token |
| EscapeCodec.EncodingMeans | packages/components/src/utils.ts:695-711 | encoding works character by character: double quote, newline, backspace, form feed, carriage return, tab and backslash become their FLOWISE_ tokens, every other character stays |
| EscapeCodec.EncodedIsPlain | packages/components/src/utils.ts:695-711 | an encoded text holds none of these seven characters |
| EscapeCodec.TokenDecoded | packages/components/src/utils.ts:695-711 | each token alone is decoded to its character |
| EscapeCodec.TokenFreeMeans | packages/components/src/utils.ts:695-703 | the seven tokens |
| EscapeCodec.ValueRoundTrip | packages/components/src/utils.ts:722-727 | and exactly the values none of whose strings, however deep, contains one |
| EscapeCodec.FieldsRoundTrip | packages/components/src/utils.ts:713-720 | the same for the fields of an object; keys do not matter |
| EscapeCodec.HandledFields | packages/components/src/utils.ts:713-727 | field by field keys and order stay, strings are handled, objects handled in turn and other values left alone |
| EscapeInPlace.Node.Iterate | packages/components/src/utils.ts:713-720 | overwriting the fields in place, recursively through objects that share nothing, handles every string once and keeps the shape |
| EscapeInPlace.EscapeAndRestore | packages/components/src/utils.ts:713-720 | escaping an object in place and putting the characters back restores it exactly if no string in it holds a token |
| InputVariables.GetInputVariables | packages/components/src/utils.ts:242-271 | reports, in the order of the closing braces, exactly the texts between matching unescaped braces that contain no colon |
| InputVariables.VariablesUnique | packages/components/src/utils.ts:242-271 | no other list of variables meets this description |
| InputVariables.PartnerIsTop | packages/components/src/utils.ts:261-267 | the only possible partner of a closing brace is the top of the stack |
| InputVariables.TopIsPartner | packages/components/src/utils.ts:261-267 | and the top of the stack is its partner |
| InputVariables.PushKeeps | packages/components/src/utils.ts:256-259 | an opening brace keeps the stack equal to the open braces that still wait |
| InputVariables.PopKeeps | packages/components/src/utils.ts:261-267 | so does a closing brace, matched or not |
| Crawler.TrailingSlashSamePage | packages/components/src/utils.ts:423-432 | with and without a trailing slash, over either protocol, a link without a query is the same page |
| Crawler.SamePageExactly | packages/components/src/utils.ts:423-432 | two URLs are one page exactly if host, port, path and query, written one after the other, are equal up to one slash at the end |
| Crawler.QueriesApart | packages/components/src/utils.ts:426 | pages that differ in their query, with queries not ending in a slash, are different |
| Crawler.PortsApart | packages/components/src/utils.ts:425-426 | so are pages on different ports |
| Crawler.NameOf | packages/components/src/utils.ts:450 | a page is listed under the protocol of the start URL and its own host, port, path and query |
| Crawler.Crawl.Visit | packages/components/src/utils.ts:442-481 | one call keeps the list duplicate-free and within the limit, adds reachable pages only, lists the page unless the limit was reached before, closes the list under links unless the limit cuts it short, and explores depth first; the recursion ends |
| Crawler.Crawl.VisitAll | packages/components/src/utils.ts:473-476 | the same for the loop over the links of a page |
| Crawler.ExploresOnce | packages/components/src/utils.ts:442-481 | there is one list that a depth-first search without recursion makes, so the order of the list is determined |
| Crawler.ExploresThen | packages/components/src/utils.ts:473-476 | searching some URLs and then others is searching them one behind the other |
| Crawler.ExploresNew | packages/components/src/utils.ts:450-476 | a new page on the host is listed and then its links are searched in their order |
| Crawler.ExploresNone | packages/components/src/utils.ts:446-453 | nothing happens at the limit, off the host or for a listed page |
| Crawler.ClosedContainsPath | packages/components/src/utils.ts:442-481 | a list closed under links contains the end of every path that starts in it |
| Crawler.WebCrawl | packages/components/src/utils.ts:489-495 | the start page is listed under its name; the order is that of the depth-first search; duplicate-free; every listed page reachable; at least one and at most `limit` pages on any site; without a limit on a finite site, or when the limit is not reached, and if links depend on the page only, exactly the reachable pages |
| Crawler.ReachedByHops | packages/components/src/utils.ts:442-481 | a page can be reached exactly if a chain of links of fetched pages on the host of the start URL ends at a URL of this name |
| SignInThrottle.Throttle.TooManyFailures | packages/server/src/identity/owner.ts:191-199 | locked exactly if the key has the maximum of failures in its running window; an expired entry is dropped and nothing else |
| SignInThrottle.Throttle.RecordFailure | packages/server/src/identity/owner.ts:201-206 | starts a window or counts in it; a table over capacity is cleared |
| SignInThrottle.Throttle.Check | packages/server/src/identity/owner.ts:210-211 | refuses if either key is locked, the second looked at only if the first is not |
| SignInThrottle.Throttle.Fail | packages/server/src/identity/owner.ts:213-217 | records the failure for both keys, address first |
| SignInThrottle.Throttle.Succeed | packages/server/src/identity/owner.ts:231 | forgets both keys and no other |
| SignInThrottle.CheckCounts | packages/server/src/identity/owner.ts:191-211 | a check raises no counter, and an attempt it admits has both counters below the maximum |
| SignInThrottle.FailureCounts | packages/server/src/identity/owner.ts:201-217 | a failure raises the two counters of its attempt by at most one and no other, although clearing and expiry intervene |
| SignInThrottle.StepKeepsBudget | packages/server/src/identity/owner.ts:208-233 | every step of overlapping attempts keeps count and attempts in flight of each key within MAX_FAILURES - 1 plus the number that may be in flight |
| SignInThrottle.ConcurrentBudget | packages/server/src/identity/owner.ts:208-233 | so in every reachable state no key has counted more than that |
| SignInThrottle.BudgetFromStart | packages/server/src/identity/owner.ts:189-233 | in particular in every state reached from the empty table |
| ThrottleClients.KeysTell | packages/server/src/identity/owner.ts:210 | attempts share the address counter exactly if the client is the same and the email counter exactly if the email is, and no address counter is an email counter |
| ThrottleClients.LockMeans | packages/server/src/identity/owner.ts:191-211 | an attempt is refused exactly if its client or its email has ten failures or more in a window of fifteen minutes that has not ended |
| ThrottleClients.FailureMeans | packages/server/src/identity/owner.ts:201-217 | a failure counts once for its client and once for its email, starts a window where the last one has ended, leaves all other entries, and clears the table where an entry would be number 10001 |
| ThrottleClients.CheckMeans | packages/server/src/identity/owner.ts:191-211 | a check drops ended windows of its client and, unless the client is locked, of its email, and nothing else |
| ThrottleClients.CountersAreFailures | packages/server/src/identity/owner.ts:187-233 | in every run no counter rises by more than the failures recorded of its client or for its email |
| ThrottleClients.AdmittedUnlessOwnFailures | packages/server/src/identity/owner.ts:187-233 | in every run from the empty table, however attempts overlap, an attempt is admitted while fewer than ten failures were recorded of its client and fewer than ten for its email, whatever others did |
| ThrottleClients.EndMeans | packages/server/src/identity/owner.ts:213-232 | a success forgets the failures of its client and its email only, so that they are admitted next; without an owner account nothing is recorded; nothing else in flight is touched |
| SlidingWindow.NextIsTwoSteps | packages/server/src/identity/owner.ts:208-233 | a sequential attempt is an arrival and, if admitted, a failure of the concurrent system |
| SlidingWindow.RunKeepsEntry | packages/server/src/identity/owner.ts:191-206 | in every sequential run whose failures clear nothing the entry of a key counts the failures of its last window, and windows hold at most MAX_FAILURES and begin more than WINDOW_MS apart |
| ThrottleClients.FitsExactly | packages/server/src/identity/owner.ts:201-206 | recording a failure loses no counter exactly if the table can hold its entries |
| SlidingWindow.SlidingWindowBound | packages/server/src/identity/owner.ts:187-206 | any span of WINDOW_MS holds at most 2 * MAX_FAILURES - 1 recorded failures of a key, unless one of the recorded failures clears the table |
| SlidingWindow.BoundIsReached | packages/server/src/identity/owner.ts:187-206 | this many are possible, for every attempt, within one millisecond |
| SlidingWindow.LockedUntilWindowEnds | packages/server/src/identity/owner.ts:191-217 | a locked key stays locked, and every attempt with it is refused, through any checks, failures of attempts in flight that clear nothing, and sign-ins with other keys; it opens exactly when WINDOW_MS has passed since the window began |
| OwnerRegistration.Process.RegisterOwner | packages/server/src/identity/owner.ts:122-173 | with any steps of other calls at each of its awaits, from every state that keeps the invariant: what it returns, the accounts and the flag afterwards are those of the call alone, decided by its input, the flag, the accounts and the steps that work; and its steps and theirs together are a run of the system |
| OwnerRegistration.OutcomeMeans | packages/server/src/identity/owner.ts:122-173 | each outcome and exactly when a call ends in it |
| OwnerRegistration.Process.Await | packages/server/src/identity/owner.ts:133-166 | while a call waits inside, other calls change neither flag nor accounts |
| OwnerRegistration.Process.Attempt | packages/server/src/identity/owner.ts:131-169 | the try block, with its four exits |
| OwnerRegistration.StepInv | packages/server/src/identity/owner.ts:122-173 | every step of any call keeps: the flag is set exactly while one call is inside, and accounts are the initial ones and those of calls that succeeded |
| OwnerRegistration.SingleOwner | packages/server/src/identity/owner.ts:122-173 | in every interleaving at most one call creates an account, and none where there were accounts |
| OwnerRegistration.MutualExclusion | packages/server/src/identity/owner.ts:130-172 | the flag tells exactly whether a call is inside, never two are, and it is reset when all have returned |
| OwnerRegistration.CanLeave | packages/server/src/identity/owner.ts:130-172 | a call inside can always leave, whatever fails, and the flag is reset then |
| OwnerRegistration.LoneCall | packages/server/src/identity/owner.ts:122-173 | a lone call whose steps all work creates the owner exactly if there was no account, and is refused otherwise |
| OwnerRegistration.RefusedWhileInside | packages/server/src/identity/owner.ts:122-131 | in every reachable state with a call inside, another one is refused at once and changes nothing |
| OwnerRegistration.Database.AdoptOrphanRows | packages/server/src/identity/owner.ts:175-183 | exactly the rows without a workspace in the listed tables that have the column move into it; nothing else changes |
| OwnerRegistration.AdoptTwice | packages/server/src/identity/owner.ts:175-183 | adopting again, for whichever workspace, changes nothing |
| OwnerRegistration.AdoptMeans | packages/server/src/identity/owner.ts:175-183 | row by row: an orphan gets the workspace, a row that has one keeps it, and no row is lost, added or moved |
| OwnerRegistration.ListedTables | packages/server/src/identity/owner.ts:33-46 | the twelve tables |
| ChatImages.ProcessMessagesWithImages | packages/components/nodes/agentflow/utils.ts:96-161 | every user message with loadable images is turned to base64 with references back, the others stay, and the originals of those turned are returned in order |
| ChatImages.RevertBase64ImagesToFileRefs | packages/components/nodes/agentflow/utils.ts:170-198 | every message with references gets its files back and loses the references, and empty metadata with them |
| ChatImages.RevertAfterProcess | packages/components/nodes/agentflow/utils.ts:96-198 | what both together leave of a message: the loaded files under their sanitized names |
| ChatImages.ProcessRevertRoundTrip | packages/components/nodes/agentflow/utils.ts:96-198 | a message comes back unchanged exactly if it was not processed and has no items with references, or each of its items was a loadable image with a clean name and its metadata held no references |
| ChatImages.RevertChanges | packages/components/nodes/agentflow/utils.ts:170-198 | reverting leaves a message alone exactly if it has no items with references |
| ChatImages.TemporaryFor | packages/components/nodes/agentflow/utils.ts:722-789 | the temporary message of one message, unless it has no images, they are shown already or none loads |
| ChatImages.CollectInsertions | packages/components/nodes/agentflow/utils.ts:720-789 | the insertions of all messages against the old indices; fails exactly where the sanitizer throws |
| ChatImages.ReverseSplicingInterleaves | packages/components/nodes/agentflow/utils.ts:791-795 | splicing them in reverse order gives each message followed by its temporary message |
| ChatImages.History.InsertInReverse | packages/components/nodes/agentflow/utils.ts:791-795 | the loop splices from the last insertion to the first |
| ChatImages.History.AddImageArtifacts | packages/components/nodes/agentflow/utils.ts:719-796 | the list in place becomes the one-pass interleaving, or stays as it was where the sanitizer throws |
| ChatImages.DropRestores | packages/components/nodes/agentflow/utils.ts:716-717 | dropping the temporary messages restores the list |
| ChatImages.NothingBehindReverted | packages/components/nodes/agentflow/utils.ts:746-762 | behind a message whose temporary message has been reverted nothing is inserted |
| ChatImages.SecondAddInsertsNothing | packages/components/nodes/agentflow/utils.ts:719-796 | with an idempotent sanitizer, adding, reverting and adding again inserts nothing the second time, exactly if reverting hides no image that a message showed |
| ChatImages.ProcessedShows | packages/components/nodes/agentflow/utils.ts:96-161 | a message turned to base64 shows an image of the assistant only if the image has no name besides the storage prefix |
| ChatImages.SecondAddAfterProcessing | packages/components/nodes/agentflow/utils.ts:719-796 | so a second add inserts nothing into a list whose images were turned to base64 before, if images have names and the other messages have no items with references |
| ChatImages.HiddenImageIsAddedAgain | packages/components/nodes/agentflow/utils.ts:719-796 | a list into which the second add inserts: an item names the image, its reference leads to another file |
| ChatImageFacts.ProcessMeans | packages/components/nodes/agentflow/utils.ts:113-158 | only a user message with items is changed, to one base64 item and one reference for each stored image that loads under its clean name, in order; role, flag and other metadata stay |
| ChatImageFacts.TransformedMean | packages/components/nodes/agentflow/utils.ts:147-150 | the messages returned beside the list are the originals of those, in order |
| ChatImageFacts.ApplyRefsMean | packages/components/nodes/agentflow/utils.ts:178-188 | item by item: a base64 item becomes the file of the first reference to its place, every other item stays |
| ChatImageFacts.RevertMeans | packages/components/nodes/agentflow/utils.ts:173-195 | a message with items and references loses the references, and its metadata if nothing else is in it; every other message stays |
| ChatImageFacts.ArtifactsMean | packages/components/nodes/agentflow/utils.ts:725-736 | only messages with role assistant or ai have artifacts, and images are those with data of the types png, jpg, jpeg, gif and webp in any case |
| ChatImageFacts.ImageArtifactsMean | packages/components/nodes/agentflow/utils.ts:733-742 | the images in order under their clean names, or a failure exactly if the sanitizer rejects the name of one |
| ChatImageFacts.LoadAllMean | packages/components/nodes/agentflow/utils.ts:767-779 | those that load, in order |
| ChatImageFacts.TemporaryMeans | packages/components/nodes/agentflow/utils.ts:781-788 | a temporary message is a user's, with these images in order and references to their files |
| ChatImageFacts.TempMeans | packages/components/nodes/agentflow/utils.ts:744-788 | there is one exactly if there are images, the next message is no user message with an item of one of their names, and one of them loads |
| ChatImageFacts.RemoveFirstMeans | packages/components/nodes/agentflow/utils.ts:756-757 | names are compared without the first occurrence of the storage prefix |
| ChatImageFacts.InterleaveMeans | packages/components/nodes/agentflow/utils.ts:720-795 | each message is followed by its temporary message, the last one without regard to a next one |
| LocalStorage.Provider.CleanEmptyLocalFolders | packages/components/src/storage/LocalStorageProvider.ts:209-230 | removes empty folders upwards as the recursive specification does |
| LocalStorage.CleanedKeeps | packages/components/src/storage/LocalStorageProvider.ts:209-230 | this removes empty directories on the way to the root only and never the root |
| LocalStorage.CleanedIsComplete | packages/components/src/storage/LocalStorageProvider.ts:209-230 | and stops only at the root or at a folder that still holds something |
| LocalStorage.Provider.GetFileFromStorage | packages/components/src/storage/LocalStorageProvider.ts:85-120 | the tree afterwards and the bytes or failure returned |
| LocalStorage.Provider.StreamStorageFile | packages/components/src/storage/LocalStorageProvider.ts:122-169 | the same for the streaming reader |
| LocalStorage.MigrateRepairs | packages/components/src/storage/LocalStorageProvider.ts:96-115 | a completed repair has the bytes at the primary path and not at the legacy one, every other node that is left as it was, new directories only above the primary path and only empty directories pruned; one that fails loses nothing |
| LocalStorage.MigrateSucceeds | packages/components/src/storage/LocalStorageProvider.ts:96-115 | a repair goes through exactly if the legacy file exists, no directory is at the primary path and no file above it |
| LocalStorage.ReadRepair | packages/components/src/storage/LocalStorageProvider.ts:85-120 | a read returns the primary file's bytes, else the legacy file's after a repair, else fails; and when which |
| LocalStorage.FoundAt | packages/components/src/storage/LocalStorageProvider.ts:85-120 | a read finds the file under all given names, or else under all but the first if it can be put where it belongs; then it is there and nowhere else |
| LocalStorage.ReadTwice | packages/components/src/storage/LocalStorageProvider.ts:85-120 | a repeated read gives the same bytes and changes nothing more |
| LocalStorage.GetFileRemovesNoDirectory | packages/components/src/storage/LocalStorageProvider.ts:110-113 | contrary to its comment the cleanup of this reader never removes a directory |
| LocalStorage.GetFileMoves | packages/components/src/storage/LocalStorageProvider.ts:96-115 | after a completed repair of this reader exactly the legacy file is gone and the way to the primary path has come |
| LocalStorage.FolderLeftEmpty | packages/components/src/storage/LocalStorageProvider.ts:110-113 | the folder of the legacy file stays behind empty exactly if it held only this file and is not on the way to the primary path |
| LocalStorage.EmptyFolderStays | packages/components/src/storage/LocalStorageProvider.ts:110-113 | a small tree in which it does |
| LocalStorage.StreamRepairPrunes | packages/components/src/storage/LocalStorageProvider.ts:142-168 | the streaming reader repairs likewise and leaves no empty folder on the way up from the legacy file |
| LocalStorage.PathOfFour | packages/components/src/storage/LocalStorageProvider.ts:130-141 | the path of a file is made of the names that are not empty, in order |
| LocalStorage.StreamedAt | packages/components/src/storage/LocalStorageProvider.ts:122-169 | the streaming reader finds the file below organization, flow and chat, or else below flow and chat if it can be put where it belongs |
| StorageListing.Walk.ReadDirectory | packages/components/src/storage/LocalStorageProvider.ts:179-203 | the recursive walk appends every file below the directory once, with its name and size, in whatever order directories are read |
| StorageListing.GetFilePaths | packages/components/src/storage/LocalStorageProvider.ts:176-207 | lists exactly the files below the directory, each once; nothing for a missing path |
| StorageListing.Walk.CalculateSize | packages/components/src/storage/LocalStorageProvider.ts:315-330 | the recursive walk adds the sizes of all files at the path or below |
| StorageListing.DirSize | packages/components/src/storage/LocalStorageProvider.ts:312-334 | the total size of these files |
| StorageListing.ListingAgreesWithSize | packages/components/src/storage/LocalStorageProvider.ts:171-334 | the sizes in any such listing of a directory add up to its size |
| StorageListing.ListsMean | packages/components/src/storage/LocalStorageProvider.ts:179-203 | a listing has each of its files in one place, under its own name and with its number of bytes |
| StorageListing.TotalMeans | packages/components/src/storage/LocalStorageProvider.ts:315-330 | the size of no file is nothing, and one more file adds its bytes |
| StorageListing.ReadKeepsSize | packages/components/src/storage/LocalStorageProvider.ts:85-120 | a read, with or without a repair, leaves the size of the whole storage as it was |

## Left out

- Indexing.Indexer.Index: does not model the `vectorStoreName` suffix of the namespace, document loaders, and store calls that throw.
- Indexing.RecordManager.Update: models the SQLite record manager; the others, and several namespaces in one table, are not part of this model.
- ZodRoundTrip.RoundTrip: covers the fragment the scanners can read: names of word characters, argument lists that come back (`ArgsComeBack` says exactly which), strings without dots, parentheses, braces, double quotes, backslashes and line ends, base types written with parentheses, no modifiers on an object directly inside an array, types the parser allows where it checks them, distinct keys.
- ZodArrays.DroppedExactly: says nothing of properties that are none or end in an object; `EmptyObject` and `EndsInObject` do, but for a last object without modifiers, of which only the first step is stated (`ObjectTakesBrace`).
- ZodParser: removal of comments and whitespace before parsing, the construction of Zod types from the parsed form, keys that JavaScript reorders or treats specially (integers, `__proto__`), rounding of numbers above 2^53.
- AudioChunker: exceptions thrown by the callbacks, destruction of the stream, and waiting times; the order of callbacks between two awaits is any order.
- EscapeInPlace.Node.Iterate: objects that share parts or contain themselves are not modelled; shared parts would be handled twice.
- Crawler.WebCrawl: URL parsing, link extraction, the deny list, and the removal of a trailing slash from the start string before parsing.
- SignInThrottle: one clock reading per check or recorded failure where the code reads the clock for each key; normalization of the email; the password check itself.
- OwnerRegistration: the checks of name, email and password, which are one flag; organization and workspace creation, and the cached owner context, which races with other processes.
- ChatImages: lookups of unique and past image messages, inline data of other providers, flow state updates.
- LocalStorage: path sanitizing and validation, uploads, removal of files and folders, and the cloud providers.
- Restructure: other helpers of the file (conditions, history selection, the extract tool).
