/**
  What the indexer does with documents, in terms of their text and metadata and of nothing
  else: which documents are told apart, what is stored for each of them and under which
  key, and which input is refused.
 */
module IndexingDocuments {
  import opened Common
  import opened Indexing
  import opened IndexingCounters

  // ---------- which documents are told apart ----------

  /** No two texts or dictionaries hashed for these documents collide, and the hashes of their texts are equally long. */
  ghost predicate CollisionFree(h: Hasher, docs: seq<Document>) {
    && (forall d, e | d in docs && e in docs && h.text(d.pageContent) == h.text(e.pageContent) :: d.pageContent == e.pageContent)
    && (forall d, e | d in docs && e in docs && h.dict(d.metadata) == h.dict(e.metadata) :: d.metadata == e.metadata)
    && (forall d, e | d in docs && e in docs :: |h.text(d.pageContent)| == |h.text(e.pageContent)|)
    && (forall d, e | d in docs && e in docs && h.text(BothHashes(h, d)) == h.text(BothHashes(h, e)) :: BothHashes(h, d) == BothHashes(h, e))
  }

  /** The hash of the content and that of the metadata, one after the other. */
  function BothHashes(h: Hasher, d: Document): string {
    h.text(d.pageContent) + h.dict(d.metadata)
  }

  /** The uid of a document without a preset one is the hash of both hashes. */
  lemma UidIsHash(h: Hasher, d: Document)
    ensures d.uid == "" ==> FromDocument(h, d) == Hashed(h.text(BothHashes(h, d)), h.text(BothHashes(h, d)), d)
    ensures d.uid != "" ==> FromDocument(h, d) == Hashed(d.uid, h.text(BothHashes(h, d)), d)
  {
  }

  /** Documents hash alike exactly if their content and their metadata are equal. */
  lemma HashTellsDocuments(h: Hasher, docs: seq<Document>, d: Document, e: Document)
    requires CollisionFree(h, docs) && d in docs && e in docs
    ensures HashOf(h, d) == HashOf(h, e) <==> d.pageContent == e.pageContent && d.metadata == e.metadata
  {
    if HashOf(h, d) == HashOf(h, e) {
      UidIsHash(h, d);
      UidIsHash(h, e);
      assert BothHashes(h, d) == BothHashes(h, e);
      var n := |h.text(d.pageContent)|;
      assert BothHashes(h, d)[..n] == h.text(d.pageContent) && BothHashes(h, e)[..n] == h.text(e.pageContent);
      assert BothHashes(h, d)[n..] == h.dict(d.metadata) && BothHashes(h, e)[n..] == h.dict(e.metadata);
    }
  }

  /** No earlier document of the list has the same hash. */
  predicate FirstOfItsHash(hs: seq<Hashed>, i: nat)
    requires i < |hs|
  {
    forall j | 0 <= j < i :: hs[j].hash != hs[i].hash
  }

  lemma FirstsOfFront(hs: seq<Hashed>)
    requires hs != []
    ensures var n := |hs| - 1;
            && (forall i: nat | i < n :: FirstOfItsHash(hs, i) <==> FirstOfItsHash(hs[..n], i))
            && (FirstOfItsHash(hs, n) <==> hs[n].hash !in Hashes(hs[..n]))
  {
    var n := |hs| - 1;
    forall i: nat | i < n ensures FirstOfItsHash(hs, i) <==> FirstOfItsHash(hs[..n], i) {
      assert forall j | 0 <= j <= i :: hs[..n][j] == hs[j];
    }
    forall j | 0 <= j < n ensures hs[j].hash in Hashes(hs[..n]) { assert hs[..n][j] in hs[..n]; }
    if x :| x in hs[..n] && x.hash == hs[n].hash {
      var j :| 0 <= j < n && hs[..n][j] == x;
      assert hs[j].hash == hs[n].hash;
    }
  }

  /** Deduplication keeps, in input order, exactly the documents with no earlier document of the same hash. */
  lemma {:induction false} DedupFirsts(hs: seq<Hashed>) returns (at: seq<nat>)
    ensures |at| == |Dedup(hs)|
    ensures forall k | 0 <= k < |at| :: at[k] < |hs| && Dedup(hs)[k] == hs[at[k]]
    ensures forall k, l | 0 <= k < l < |at| :: at[k] < at[l]
    ensures AreFirsts(hs, at)
  {
    at := [];
    if hs != [] {
      var n := |hs| - 1;
      var front := DedupFirsts(hs[..n]);
      DedupKeepsEachHashOnce(hs[..n]);
      FirstsOfFront(hs);
      at := if FirstOfItsHash(hs, n) then front + [n] else front;
      FirstsStep(hs, front, at);
    }
  }

  /** These are the places of the documents that come first with their hash. */
  ghost predicate AreFirsts(hs: seq<Hashed>, at: seq<nat>) {
    forall i: nat | i < |hs| :: i in at <==> FirstOfItsHash(hs, i)
  }

  lemma FirstsStep(hs: seq<Hashed>, front: seq<nat>, at: seq<nat>)
    requires hs != [] && AreFirsts(hs[..|hs| - 1], front) && forall k | 0 <= k < |front| :: front[k] < |hs| - 1
    requires at == if FirstOfItsHash(hs, |hs| - 1) then front + [|hs| - 1] else front
    ensures AreFirsts(hs, at)
  {
    var n := |hs| - 1;
    FirstsOfFront(hs);
    OneMoreIndex(front, n);
    forall i: nat | i < |hs| ensures i in at <==> FirstOfItsHash(hs, i) {
      if i < n {
        assert i in front <==> FirstOfItsHash(hs[..n], i);
      }
    }
  }

  lemma OneMoreIndex(front: seq<nat>, n: nat)
    requires forall k | 0 <= k < |front| :: front[k] < n
    ensures n !in front
    ensures forall i :: i in front + [n] <==> i in front || i == n
  {
  }

  function DocumentsOf(hs: seq<Hashed>): (ds: seq<Document>)
    ensures |ds| == |hs| && forall k | 0 <= k < |hs| :: ds[k] == hs[k].doc
  {
    seq(|hs|, k requires 0 <= k < |hs| => hs[k].doc)
  }

  /** Any two differ in content or in metadata. */
  predicate Apart(docs: seq<Document>) {
    forall k, l | 0 <= k < l < |docs| :: docs[k].pageContent != docs[l].pageContent || docs[k].metadata != docs[l].metadata
  }

  /** Without preset uids a deduplicated batch holds every document once: two stay apart exactly if they differ. */
  lemma DedupTellsDocuments(h: Hasher, docs: seq<Document>)
    requires NoPresetUids(docs) && CollisionFree(h, docs)
    ensures var kept := DocumentsOf(Dedup(HashList(h, docs)));
            && (forall d :: d in docs <==> d in kept)
            && Apart(kept)
            && |kept| == |AsSet(docs)|
  {
    var kept := DocumentsOf(Dedup(HashList(h, docs)));
    forall d ensures d in docs <==> d in kept { KeptOfDocument(h, docs, d); }
    KeptApart(h, docs);
    SizeOfDistinct(kept);
    assert AsSet(kept) == AsSet(docs);
  }

  lemma KeptApart(h: Hasher, docs: seq<Document>)
    requires NoPresetUids(docs) && CollisionFree(h, docs)
    ensures Apart(DocumentsOf(Dedup(HashList(h, docs))))
  {
    var hs := HashList(h, docs);
    var ds := Dedup(hs);
    DedupKeepsEachHashOnce(hs);
    var kept := DocumentsOf(ds);
    forall k, l | 0 <= k < l < |kept| ensures kept[k].pageContent != kept[l].pageContent || kept[k].metadata != kept[l].metadata {
      assert ds[k] in hs && ds[l] in hs;
      assert ds[k].hash != ds[l].hash;
      HashTellsDocuments(h, docs, ds[k].doc, ds[l].doc);
    }
  }

  /** Deduplication keeps a document with the hash of each given one. */
  lemma SameHash(h: Hasher, docs: seq<Document>, d: Document) returns (x: Hashed)
    requires d in docs
    ensures x in Dedup(HashList(h, docs)) && x.doc in docs && HashOf(h, x.doc) == HashOf(h, d)
  {
    var hs := HashList(h, docs);
    DedupKeepsEachHashOnce(hs);
    var i :| 0 <= i < |docs| && docs[i] == d;
    assert hs[i] in hs && hs[i].hash in Hashes(Dedup(hs));
    x :| x in Dedup(hs) && x.hash == hs[i].hash;
    assert x in hs;
  }

  lemma KeptOfDocument(h: Hasher, docs: seq<Document>, d: Document)
    requires NoPresetUids(docs) && CollisionFree(h, docs)
    ensures d in docs <==> d in DocumentsOf(Dedup(HashList(h, docs)))
  {
    var hs := HashList(h, docs);
    var ds := Dedup(hs);
    DedupKeepsEachHashOnce(hs);
    if d in docs {
      var x := SameHash(h, docs, d);
      HashTellsDocuments(h, docs, x.doc, d);
      var k :| 0 <= k < |ds| && ds[k] == x;
      assert DocumentsOf(ds)[k] == d;
    }
    if d in DocumentsOf(ds) {
      var k :| 0 <= k < |ds| && DocumentsOf(ds)[k] == d;
      assert ds[k] in hs;
    }
  }

  // ---------- what a run leaves ----------

  lemma SubsetFree(h: Hasher, docs: seq<Document>, part: seq<Document>)
    requires NoPresetUids(docs) && CollisionFree(h, docs) && forall d | d in part :: d in docs
    ensures NoPresetUids(part) && CollisionFree(h, part)
  {
  }

  /** Whatever the batches, a run looks at every document. */
  lemma {:induction false} KeptOfRun(h: Hasher, batches: seq<seq<Document>>)
    requires NoPresetUids(Flatten(batches)) && CollisionFree(h, Flatten(batches))
    ensures forall x :: x in Kept(h, batches) <==> x.doc in Flatten(batches) && x == FromDocument(h, x.doc)
  {
    if batches != [] {
      var front, last := batches[..|batches| - 1], batches[|batches| - 1];
      assert batches == front + [last];
      FlattenAppend(front, last);
      SubsetFree(h, Flatten(batches), Flatten(front));
      SubsetFree(h, Flatten(batches), last);
      KeptOfRun(h, front);
      forall x ensures x in Dedup(HashList(h, last)) <==> x.doc in last && x == FromDocument(h, x.doc) {
        KeptHashed(h, last, x);
      }
    } else {
      assert Flatten(batches) == [];
    }
  }

  lemma KeptHashed(h: Hasher, docs: seq<Document>, x: Hashed)
    requires NoPresetUids(docs) && CollisionFree(h, docs)
    ensures x in Dedup(HashList(h, docs)) <==> x.doc in docs && x == FromDocument(h, x.doc)
  {
    var ds := Dedup(HashList(h, docs));
    DedupKeepsEachHashOnce(HashList(h, docs));
    assert forall y | y in ds :: y == FromDocument(h, y.doc);
    KeptOfDocument(h, docs, x.doc);
    if x.doc in docs {
      var k :| 0 <= k < |ds| && DocumentsOf(ds)[k] == x.doc;
      assert ds[k] in ds;
    }
    if x in ds {
      var k :| 0 <= k < |ds| && ds[k] == x;
      assert DocumentsOf(ds)[k] == x.doc;
    }
  }

  /** The source a document names, spelled out for each kind of key. */
  predicate Names(key: SourceKey, d: Document, group: string) {
    match key
    case NoKey => false
    case Key(field) => field in d.metadata && d.metadata[field] == Some(group)
    case Assigner(f) => f(d) == Text(group)
  }

  lemma SourceIsNamed(key: SourceKey, d: Document, group: string)
    ensures SourceOf(key, d) == Text(group) <==> Names(key, d, group)
  {
  }

  /** A record the cleanup leaves although no document of the run has its key. */
  predicate Survives(r: Record, start: Time, opts: Options, docs: seq<Document>) {
    match opts.cleanup
    case NoCleanup => true
    case Full => start <= r.updatedAt
    case Incremental => start <= r.updatedAt || r.group == None || forall d | d in docs :: !Names(opts.sourceIdKey, d, r.group.value)
  }

  /** The key of one of the documents. */
  ghost predicate IsKeyOf(h: Hasher, docs: seq<Document>, k: Uid) {
    exists d | d in docs :: h.text(BothHashes(h, d)) == k
  }

  /** The keys of both stores after a run: those of the documents and of the surviving old records. */
  lemma KeysExactly(h: Hasher, before: Records, after: Records, docs0: Stores, docs1: Stores, docs: seq<Document>,
                    opts: Options, start: Time, counts: Counts, added: seq<Stored>)
    requires Indexed(h, before, after, docs0, docs1, docs, opts, start, counts, added)
    requires NoPresetUids(docs) && CollisionFree(h, docs)
    ensures forall k :: k in after <==> IsKeyOf(h, docs, k) || (k in before && Survives(before[k], start, opts, docs))
    ensures InStep(before, docs0) ==> docs1.Keys == after.Keys
  {
    var kept := KeptDocuments(h, docs, opts.batchSize);
    KeptUidsAre(h, docs, kept);
    GroupsAre(h, opts.sourceIdKey, docs, kept);
    Survivors(before, start, opts, docs, Uids(kept), Groups(opts.sourceIdKey, kept));
  }

  lemma Survivors(before: Records, start: Time, opts: Options, docs: seq<Document>, uids: set<Uid>, groups: set<string>)
    requires forall g :: g in groups <==> exists d | d in docs :: Names(opts.sourceIdKey, d, g)
    ensures forall k :: k in FinalKeys(before, start, opts.cleanup, uids, groups)
                        <==> k in uids || (k in before && Survives(before[k], start, opts, docs))
  {
  }

  /** No two different documents share a key. */
  lemma KeysApart(h: Hasher, docs: seq<Document>, d: Document, e: Document)
    requires CollisionFree(h, docs) && d in docs && e in docs
    ensures h.text(BothHashes(h, d)) == h.text(BothHashes(h, e)) <==> d.pageContent == e.pageContent && d.metadata == e.metadata
  {
    HashTellsDocuments(h, docs, d, e);
  }

  /** What the run keeps of these documents. */
  lemma KeptDocuments(h: Hasher, docs: seq<Document>, size: int) returns (kept: seq<Hashed>)
    requires NoPresetUids(docs) && CollisionFree(h, docs)
    ensures kept == Kept(h, Batches(size, docs))
    ensures forall x :: x in kept <==> x.doc in docs && x == FromDocument(h, x.doc)
  {
    kept := Kept(h, Batches(size, docs));
    BatchesPartition(size, docs);
    KeptOfRun(h, Batches(size, docs));
  }

  lemma KeptUidsAre(h: Hasher, docs: seq<Document>, kept: seq<Hashed>)
    requires NoPresetUids(docs)
    requires forall x :: x in kept <==> x.doc in docs && x == FromDocument(h, x.doc)
    ensures forall k :: k in Uids(kept) <==> IsKeyOf(h, docs, k)
  {
    forall d | d in docs ensures h.text(BothHashes(h, d)) in Uids(kept) {
      UidIsHash(h, d);
      assert FromDocument(h, d) in kept;
    }
    forall k | k in Uids(kept) ensures IsKeyOf(h, docs, k) {
      var x :| x in kept && x.uid == k;
      UidIsHash(h, x.doc);
    }
  }

  lemma GroupsAre(h: Hasher, key: SourceKey, docs: seq<Document>, kept: seq<Hashed>)
    requires forall x :: x in kept <==> x.doc in docs && x == FromDocument(h, x.doc)
    ensures forall g :: g in Groups(key, kept) <==> exists d | d in docs :: Names(key, d, g)
  {
    forall g, d | d in docs && Names(key, d, g) ensures g in Groups(key, kept) {
      SourceIsNamed(key, d, g);
      assert FromDocument(h, d) in kept;
    }
    forall g | g in Groups(key, kept) ensures exists d | d in docs :: Names(key, d, g) {
      var x :| x in kept && SourceOf(key, x.doc).Text? && SourceOf(key, x.doc).s == g;
      SourceIsNamed(key, x.doc, g);
    }
  }

  /** What the record of a document's key holds: a stamp of this run, the document's id, and for a new key its source. */
  ghost predicate Recorded(d: Document, known: bool, r: Record, start: Time, key: SourceKey) {
    && start <= r.updatedAt
    && r.docId == (if "docId" in d.metadata then d.metadata["docId"] else None)
    && (!known ==> forall g :: r.group == Some(g) <==> Names(key, d, g))
  }

  /** What both stores hold under the keys of the documents. */
  lemma DocumentsStored(h: Hasher, before: Records, after: Records, docs0: Stores, docs1: Stores, docs: seq<Document>,
                        opts: Options, start: Time, counts: Counts, added: seq<Stored>, d: Document)
    requires Indexed(h, before, after, docs0, docs1, docs, opts, start, counts, added)
    requires NoPresetUids(docs) && CollisionFree(h, docs) && d in docs
    ensures var k := h.text(BothHashes(h, d));
            && k in after && Recorded(d, k in before, after[k], start, opts.sourceIdKey)
            && (k in before && after[k].group != before[k].group ==> forall g :: after[k].group == Some(g) <==> Names(opts.sourceIdKey, d, g))
            && (InStep(before, docs0) ==> k in docs1 && (k !in before || opts.forceUpdate ==> docs1[k] == Stored(d.pageContent, d.metadata)))
  {
    var kept := KeptDocuments(h, docs, opts.batchSize);
    var k := h.text(BothHashes(h, d));
    UidIsHash(h, d);
    assert FromDocument(h, d) in kept && k in Uids(kept);
    KeptUidsAre(h, docs, kept);
    forall x | x in kept && x.uid == k ensures x.doc == d {
      OneOfItsUid(h, docs, kept, d, x);
    }
    assert DocIdFrom(kept, k, after[k].docId);
    KnownGroup(opts.sourceIdKey, d, kept, k);
  }

  lemma OneOfItsUid(h: Hasher, docs: seq<Document>, kept: seq<Hashed>, d: Document, x: Hashed)
    requires NoPresetUids(docs) && CollisionFree(h, docs) && d in docs
    requires x.doc in docs && x == FromDocument(h, x.doc) && x.uid == h.text(BothHashes(h, d))
    ensures x.doc == d
  {
    UidIsHash(h, x.doc);
    KeysApart(h, docs, x.doc, d);
  }

  lemma KnownGroup(key: SourceKey, d: Document, kept: seq<Hashed>, k: Uid)
    requires forall x | x in kept && x.uid == k :: x.doc == d
    ensures forall group | GroupFrom(key, kept, k, group) :: forall g :: group == Some(g) <==> Names(key, d, g)
  {
    forall g { SourceIsNamed(key, d, g); }
  }

  /** Nothing else is touched: an old record without a document of the run stays as it is or goes, and its document with it. */
  lemma OthersUntouched(h: Hasher, before: Records, after: Records, docs0: Stores, docs1: Stores, docs: seq<Document>,
                        opts: Options, start: Time, counts: Counts, added: seq<Stored>, k: Uid)
    requires Indexed(h, before, after, docs0, docs1, docs, opts, start, counts, added)
    requires NoPresetUids(docs) && CollisionFree(h, docs) && !IsKeyOf(h, docs, k)
    ensures k in after ==> k in before && after[k] == before[k]
    ensures k in docs1 ==> k in docs0 && docs1[k] == docs0[k]
  {
    var kept := KeptDocuments(h, docs, opts.batchSize);
    KeptUidsAre(h, docs, kept);
    KeysExactly(h, before, after, docs0, docs1, docs, opts, start, counts, added);
    assert k !in Uids(kept);
  }

  // ---------- which input is refused ----------

  /** No metadata under a name that the hashes use. */
  predicate NoReservedKey(d: Document) {
    "hash_" !in d.metadata && "content_hash" !in d.metadata && "metadata_hash" !in d.metadata
  }

  predicate NamesSource(key: SourceKey, d: Document) {
    match key
    case NoKey => false
    case Key(field) => field in d.metadata && d.metadata[field] != None && d.metadata[field] != Some("")
    case Assigner(f) => f(d).Text? && f(d) != Text("")
  }

  /** The input is acceptable exactly if no document has a reserved key and, for the cleanup by source, every document names one. */
  lemma AcceptedExactly(h: Hasher, docs: seq<Document>, opts: Options)
    requires NoPresetUids(docs) && CollisionFree(h, docs)
    ensures Accepted(h, docs, opts) <==>
              && (forall d | d in docs :: NoReservedKey(d))
              && (opts.cleanup == Incremental ==>
                    && opts.sourceIdKey != NoKey && opts.sourceIdKey != Key("")
                    && forall d | d in docs :: NamesSource(opts.sourceIdKey, d))
  {
    var batches := Batches(opts.batchSize, docs);
    BatchesPartition(opts.batchSize, docs);
    AcceptedBatches(h, batches, opts, |batches|);
    assert batches[..|batches|] == batches;
  }

  predicate Fine(d: Document, opts: Options) {
    NoReservedKey(d) && (opts.cleanup == Incremental ==> NamesSource(opts.sourceIdKey, d))
  }

  lemma {:induction false} AcceptedBatches(h: Hasher, batches: seq<seq<Document>>, opts: Options, n: nat)
    requires n <= |batches|
    requires NoPresetUids(Flatten(batches)) && CollisionFree(h, Flatten(batches))
    ensures AcceptedUpTo(h, batches, opts, n) <==> forall d | d in Flatten(batches[..n]) :: Fine(d, opts)
  {
    if n == 0 {
      assert Flatten(batches[..0]) == [];
    } else {
      AcceptedBatches(h, batches, opts, n - 1);
      assert batches[..n] == batches[..n - 1] + [batches[n - 1]];
      FlattenAppend(batches[..n - 1], batches[n - 1]);
      BatchWithin(batches, n - 1);
      SubsetFree(h, Flatten(batches), batches[n - 1]);
      BatchFine(h, batches[n - 1], opts);
    }
  }

  lemma BatchFine(h: Hasher, batch: seq<Document>, opts: Options)
    requires NoPresetUids(batch) && CollisionFree(h, batch)
    ensures BatchAccepted(h, batch, opts) <==> forall d | d in batch :: Fine(d, opts)
  {
    forall d ensures Hashable(d) <==> NoReservedKey(d) { ReservedKeys(d); }
    forall d ensures Truthy(SourceOf(opts.sourceIdKey, d)) <==> NamesSource(opts.sourceIdKey, d) { }
    SourcesOfBatch(h, opts.sourceIdKey, batch);
  }

  lemma ReservedKeys(d: Document)
    ensures Hashable(d) <==> NoReservedKey(d)
  {
    assert forall k | k in d.metadata.Keys && k in RESERVED_KEYS :: k == "hash_" || k == "content_hash" || k == "metadata_hash";
    assert "hash_" in RESERVED_KEYS && "content_hash" in RESERVED_KEYS && "metadata_hash" in RESERVED_KEYS;
  }

  lemma SourcesOfBatch(h: Hasher, key: SourceKey, batch: seq<Document>)
    requires NoPresetUids(batch) && CollisionFree(h, batch)
    ensures (forall s | s in SourceIds(key, Dedup(HashList(h, batch))) :: Truthy(s)) <==> forall d | d in batch :: Truthy(SourceOf(key, d))
  {
    var ds := Dedup(HashList(h, batch));
    var sources := SourceIds(key, ds);
    forall d | d in batch ensures SourceOf(key, d) in sources {
      KeptHashed(h, batch, FromDocument(h, d));
      var i :| 0 <= i < |ds| && ds[i] == FromDocument(h, d);
      assert sources[i] == SourceOf(key, d);
    }
    forall s | s in sources ensures exists d :: d in batch && s == SourceOf(key, d) {
      var i :| 0 <= i < |sources| && sources[i] == s;
      KeptHashed(h, batch, ds[i]);
      assert ds[i].doc in batch;
    }
  }

  /** What each error says of the documents and the options. */
  lemma BlamedMeans(error: IndexError, docs: seq<Document>, opts: Options)
    ensures error == MissingSourceKey ==>
              (Blamed(error, docs, opts) <==> opts.cleanup == Incremental && (opts.sourceIdKey == NoKey || opts.sourceIdKey == Key("")))
    ensures error == ReservedMetadataKey ==> (Blamed(error, docs, opts) <==> exists d :: d in docs && !NoReservedKey(d))
    ensures error == NullSource ==>
              (Blamed(error, docs, opts) <==> opts.cleanup == Incremental && exists d :: d in docs && SourceOf(opts.sourceIdKey, d) == Null)
    ensures error == FalsySource ==>
              (Blamed(error, docs, opts) <==> opts.cleanup == Incremental && exists d :: d in docs && !NamesSource(opts.sourceIdKey, d))
  {
    forall d ensures Hashable(d) <==> NoReservedKey(d) { ReservedKeys(d); }
    assert forall d :: Truthy(SourceOf(opts.sourceIdKey, d)) <==> NamesSource(opts.sourceIdKey, d);
  }

  /** A source is null for a document whose field holds null, undefined for one without the field. */
  lemma SourceOfField(field: string, d: Document)
    ensures SourceOf(Key(field), d) == Null <==> field in d.metadata && d.metadata[field] == None
    ensures SourceOf(Key(field), d) == Undefined <==> field !in d.metadata
  {
  }

  // ---------- how many are stored ----------

  function KeysOf(h: Hasher, docs: set<Document>): set<Uid> {
    set d | d in docs :: h.text(BothHashes(h, d))
  }

  function Image<T, U(==)>(xs: set<T>, f: T -> U): set<U> {
    set x | x in xs :: f(x)
  }

  lemma {:induction false} ImageSize<T, U>(xs: set<T>, f: T -> U)
    requires forall x, y | x in xs && y in xs && f(x) == f(y) :: x == y
    ensures |Image(xs, f)| == |xs|
  {
    if xs != {} {
      var x :| x in xs;
      ImageSize(xs - {x}, f);
      assert Image(xs, f) == Image(xs - {x}, f) + {f(x)};
      assert f(x) !in Image(xs - {x}, f);
    }
  }

  /** As many keys as documents. */
  lemma CountKeys(h: Hasher, all: seq<Document>, docs: set<Document>)
    requires NoPresetUids(all) && CollisionFree(h, all) && forall d | d in docs :: d in all
    ensures |KeysOf(h, docs)| == |docs|
  {
    var f := (d: Document) => h.text(BothHashes(h, d));
    forall d, e | d in docs && e in docs && f(d) == f(e) ensures d == e {
      KeysApart(h, all, d, e);
    }
    ImageSize(docs, f);
    assert Image(docs, f) == KeysOf(h, docs);
  }

  /** A run over empty stores leaves one key for every different document. */
  lemma OneKeyEach(h: Hasher, after: Records, docs1: Stores, docs: seq<Document>,
                   opts: Options, start: Time, counts: Counts, added: seq<Stored>)
    requires Indexed(h, map[], after, map[], docs1, docs, opts, start, counts, added)
    requires NoPresetUids(docs) && CollisionFree(h, docs)
    ensures |after| == |docs1| == |AsSet(docs)|
  {
    var before: Records := map[];
    var docs0: Stores := map[];
    KeysExactly(h, before, after, docs0, docs1, docs, opts, start, counts, added);
    OnlyTheirKeys(h, docs, after.Keys);
    CountKeys(h, docs, AsSet(docs));
    KeyCount(after);
    KeyCount(docs1);
  }

  lemma OnlyTheirKeys(h: Hasher, docs: seq<Document>, keys: set<Uid>)
    requires forall k :: k in keys <==> IsKeyOf(h, docs, k)
    ensures keys == KeysOf(h, AsSet(docs))
  {
  }

  lemma KeyCount<T>(m: map<Uid, T>)
    ensures |m| == |m.Keys|
  {
  }

  /** The different documents whose key has no record yet. */
  function NewDocuments(h: Hasher, before: Records, docs: seq<Document>): set<Document> {
    set d | d in docs && h.text(BothHashes(h, d)) !in before
  }

  /** Without cleanup by source a run counts one addition for each of them, whatever its batches. */
  lemma AdditionsExactly(h: Hasher, before: Records, after: Records, docs0: Stores, docs1: Stores, docs: seq<Document>,
                         opts: Options, start: Time, counts: Counts, added: seq<Stored>)
    requires Indexed(h, before, after, docs0, docs1, docs, opts, start, counts, added)
    requires NoPresetUids(docs) && CollisionFree(h, docs) && opts.cleanup != Incremental
    ensures counts.added == |NewDocuments(h, before, docs)|
  {
    AddedForKeys(h, before, start, opts, docs);
    assert counts.ButDeleted().added == InBatches(h, before, start, opts, docs, opts.batchSize).added;
    NewKeys(h, before, docs);
    CountKeys(h, docs, NewDocuments(h, before, docs));
  }

  lemma AddedForKeys(h: Hasher, before: Records, start: Time, opts: Options, docs: seq<Document>)
    requires NoPresetUids(docs) && opts.cleanup != Incremental
    ensures InBatches(h, before, start, opts, docs, opts.batchSize).added == |Uids(Dedup(HashList(h, docs))) - before.Keys|
  {
    FaithfulWithoutPresets(h, docs);
    WithoutSourceCleanup(h, before, start, opts, docs, opts.batchSize);
    OneBatch(h, before, start, opts, docs);
    NothingTwiceAsOne(h, before, opts, docs);
  }

  lemma FaithfulWithoutPresets(h: Hasher, docs: seq<Document>)
    requires NoPresetUids(docs)
    ensures Faithful(h, NoKey, docs) && UidsApart(h, docs)
  {
    PresetsApart(h, docs);
  }

  lemma NewKeys(h: Hasher, before: Records, docs: seq<Document>)
    requires NoPresetUids(docs) && CollisionFree(h, docs)
    ensures Uids(Dedup(HashList(h, docs))) - before.Keys == KeysOf(h, NewDocuments(h, before, docs))
  {
    forall x ensures x in Dedup(HashList(h, docs)) <==> x.doc in docs && x == FromDocument(h, x.doc) { KeptHashed(h, docs, x); }
    KeptUidsAre(h, docs, Dedup(HashList(h, docs)));
  }

  // ---------- the documents reported as added ----------

  /** A kept document under this uid is among the added ones. */
  ghost predicate AddedUnder(kept: seq<Hashed>, uid: Uid, added: seq<Stored>) {
    exists y | y in kept :: y.uid == uid && ToDocument(y) in added
  }

  ghost predicate AddedFrom(kept: seq<Hashed>, added: seq<Stored>) {
    forall s | s in added :: exists y | y in kept :: s == ToDocument(y)
  }

  lemma AddedGrows(k1: seq<Hashed>, a1: seq<Stored>, k2: seq<Hashed>, a2: seq<Stored>)
    ensures AddedFrom(k1, a1) && AddedFrom(k2, a2) ==> AddedFrom(k1 + k2, a1 + a2)
    ensures forall uid | AddedUnder(k1, uid, a1) || AddedUnder(k2, uid, a2) :: AddedUnder(k1 + k2, uid, a1 + a2)
  {
    assert forall y | y in k1 || y in k2 :: y in k1 + k2;
    assert forall s | s in a1 || s in a2 :: s in a1 + a2;
  }

  /** What one batch adds. */
  lemma BatchAdds(hs: seq<Hashed>, known: set<Uid>, force: bool)
    ensures var t := BatchTally(hs, known, force);
            && AddedFrom(hs, t.added) && |t.added| == t.counts.added + t.counts.updated
            && forall uid | uid in Uids(hs) && uid !in known :: AddedUnder(hs, uid, t.added)
  {
    var idx := ToIndex(hs, known, force);
    var added := BatchTally(hs, known, force).added;
    ToIndexWithin(hs, known, force);
    ToIndexEffect(hs, known, force);
    forall s | s in added ensures exists y | y in hs :: s == ToDocument(y) {
      var i :| 0 <= i < |added| && added[i] == s;
      assert idx[i] in hs;
    }
    forall uid | uid in Uids(hs) && uid !in known ensures AddedUnder(hs, uid, added) {
      assert uid in Uids(idx);
      var y :| y in idx && y.uid == uid;
      var i :| 0 <= i < |idx| && idx[i] == y;
      assert added[i] == ToDocument(y);
    }
  }

  lemma {:induction false} TallyAdds(h: Hasher, before: Records, start: Time, opts: Options, batches: seq<seq<Document>>)
    ensures var t := Tally(h, before, start, opts, batches);
            var kept := Kept(h, batches);
            && AddedFrom(kept, t.added) && |t.added| == t.counts.added + t.counts.updated
            && forall uid | uid in Uids(kept) && uid !in before :: AddedUnder(kept, uid, t.added)
  {
    if batches != [] {
      var n := |batches| - 1;
      var front := batches[..n];
      var kept, hs := Kept(h, front), Dedup(HashList(h, batches[n]));
      var known := KnownAfter(before, start, opts, kept);
      TallyAdds(h, before, start, opts, front);
      BatchAdds(hs, known, opts.forceUpdate);
      AddedGrows(kept, Tally(h, before, start, opts, front).added, hs, BatchTally(hs, known, opts.forceUpdate).added);
      UnionOfLists(NoKey, kept, hs);
    }
  }

  /** The added documents are given ones, as many as the counters say, and every new one is among them. */
  lemma AddedDocuments(h: Hasher, before: Records, after: Records, docs0: Stores, docs1: Stores, docs: seq<Document>,
                       opts: Options, start: Time, counts: Counts, added: seq<Stored>)
    requires Indexed(h, before, after, docs0, docs1, docs, opts, start, counts, added)
    requires NoPresetUids(docs) && CollisionFree(h, docs)
    ensures |added| == counts.added + counts.updated
    ensures forall s | s in added :: exists d | d in docs :: s == Stored(d.pageContent, d.metadata)
    ensures forall d | d in NewDocuments(h, before, docs) :: Stored(d.pageContent, d.metadata) in added
  {
    var kept := KeptDocuments(h, docs, opts.batchSize);
    TallyAdds(h, before, start, opts, Batches(opts.batchSize, docs));
    forall d | d in NewDocuments(h, before, docs) ensures Stored(d.pageContent, d.metadata) in added {
      UidIsHash(h, d);
      assert FromDocument(h, d) in kept;
      assert AddedUnder(kept, h.text(BothHashes(h, d)), added);
      var y :| y in kept && y.uid == h.text(BothHashes(h, d)) && ToDocument(y) in added;
      OneOfItsUid(h, docs, kept, d, y);
    }
  }

  // ---------- the order of the calls ----------

  /** At no moment of a run is there a record stamped by it without its document; behind a call on the records the keys are equal. */
  lemma SafeMeans(origin: Snapshot, calls: seq<Call>, start: Time, n: nat)
    requires SafeRun(origin, calls, start) && 0 < n <= |calls|
    ensures var s := Replay(origin, calls[..n]);
            && (forall k | k in s.records && start <= s.records[k].updatedAt :: k in s.docs)
            && (calls[n - 1].Updated? || calls[n - 1].KeysDeleted? ==> s.records.Keys == s.docs.Keys)
  {
    assert SafeAfter(Replay(origin, calls[..n]), calls[n - 1], start);
  }

  /** Documents are added right before the update of their records and deleted right before their records. */
  ghost predicate Paired(calls: seq<Call>, i: nat)
    requires i < |calls|
  {
    && (calls[i].Added? ==> i + 1 < |calls| && calls[i + 1].Updated?)
    && (calls[i].DocsDeleted? ==> i + 1 < |calls| && calls[i + 1] == KeysDeleted(calls[i].ids))
    && (calls[i].KeysDeleted? ==> i > 0 && calls[i - 1] == DocsDeleted(calls[i].ids))
  }

  lemma {:induction false} SettledMeans(calls: seq<Call>, i: nat)
    requires Settled(calls) && i < |calls|
    ensures Paired(calls, i)
    decreases |calls|
  {
    var n := |calls|;
    if calls[n - 1].Updated? && Settled(calls[..n - 1]) {
      if i < n - 1 { SettledMeans(calls[..n - 1], i); assert Paired(calls[..n - 1], i); }
    } else {
      assert Settled(calls[..n - 2]);
      if i < n - 2 { SettledMeans(calls[..n - 2], i); assert Paired(calls[..n - 2], i); }
    }
  }
}
