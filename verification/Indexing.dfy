/**
  The incremental indexer of packages/components/src/indexing.ts.

  A run keeps two stores in step: the record manager (uid -> time stamp and group)
  and the vector store (uid -> document). The specification part describes what a
  run does to the two key sets without mentioning batches; the classes below it
  follow the code call by call.
 */
module Indexing {
  import opened Common

  // ---------- documents and hashes ----------

  type Uid = string

  /** What sha256 and uuidv5 produce: never empty. */
  type Uuid = s: string | s != "" witness "0"

  /** A metadata value; `None` is JavaScript's null, an absent key is undefined. */
  type Metadata = map<string, Option<string>>

  /** `uid` is "" when the caller supplied none. */
  datatype Document = Document(pageContent: string, metadata: Metadata, uid: Uid)

  datatype Hashed = Hashed(uid: Uid, hash: Uuid, doc: Document)

  /** The two uninterpreted hash functions. */
  datatype Hasher = Hasher(text: string -> Uuid, dict: Metadata -> Uuid)

  const RESERVED_KEYS := {"hash_", "content_hash", "metadata_hash"}

  datatype IndexError = MissingSourceKey | ReservedMetadataKey | NullSource | FalsySource | TimeSync

  datatype Result<+T> = Ok(value: T) | Err(error: IndexError)

  function HashOf(h: Hasher, d: Document): Uuid {
    h.text(h.text(d.pageContent) + h.dict(d.metadata))
  }

  function FromDocument(h: Hasher, d: Document): Hashed {
    Hashed(if d.uid == "" then HashOf(h, d) else d.uid, HashOf(h, d), d)
  }

  predicate Hashable(d: Document) {
    d.metadata.Keys !! RESERVED_KEYS
  }

  /** `batch.map(fromDocument)`: the first reserved metadata key aborts the run. */
  function HashAll(h: Hasher, docs: seq<Document>): Result<seq<Hashed>> {
    if forall d | d in docs :: Hashable(d)
    then Ok(seq(|docs|, i requires 0 <= i < |docs| => FromDocument(h, docs[i])))
    else Err(ReservedMetadataKey)
  }

  // ---------- sources ----------

  datatype Source = Null | Undefined | Text(s: string)

  datatype SourceKey = NoKey | Key(key: string) | Assigner(f: Document -> Source)

  function SourceOf(key: SourceKey, d: Document): Source {
    match key
    case NoKey => Null
    case Key(k) => if k !in d.metadata then Undefined else if d.metadata[k] == None then Null else Text(d.metadata[k].value)
    case Assigner(f) => f(d)
  }

  predicate Truthy(s: Source) {
    s.Text? && s.s != ""
  }

  // ---------- batches and deduplication ----------

  /** The batches `_batch` must produce; a size below 1 behaves like 1. */
  function Batches<T>(size: int, items: seq<T>): (bs: seq<seq<T>>)
    decreases |items|
  {
    var n := if size < 1 then 1 else size;
    if items == [] then []
    else if |items| <= n then [items]
    else [items[..n]] + Batches(size, items[n..])
  }

  function Flatten<T>(bs: seq<seq<T>>): seq<T> {
    if bs == [] then [] else bs[0] + Flatten(bs[1..])
  }

  lemma {:induction false} FlattenAppend<T>(a: seq<seq<T>>, b: seq<T>)
    ensures Flatten(a + [b]) == Flatten(a) + b
  {
    if a == [] {
      assert Flatten([b]) == b + Flatten([]);
    } else {
      assert (a + [b])[1..] == a[1..] + [b];
      FlattenAppend(a[1..], b);
    }
  }

  /** Batching loses, repeats and reorders nothing; only the last batch may be short. */
  lemma {:induction false} BatchesPartition<T>(size: int, items: seq<T>)
    ensures Flatten(Batches(size, items)) == items
    ensures forall i | 0 <= i < |Batches(size, items)| :: 1 <= |Batches(size, items)[i]| <= (if size < 1 then 1 else size)
    ensures forall i | 0 <= i < |Batches(size, items)| - 1 :: |Batches(size, items)[i]| == (if size < 1 then 1 else size)
    decreases |items|
  {
    var n := if size < 1 then 1 else size;
    if |items| > n {
      BatchesPartition(size, items[n..]);
      var rest := Batches(size, items[n..]);
      var bs := Batches(size, items);
      assert bs == [items[..n]] + rest;
      assert bs[1..] == rest;
      assert rest != [];
      forall i | 1 <= i < |bs| ensures bs[i] == rest[i - 1] { }
    } else if items != [] {
      assert Flatten([items]) == items + Flatten([]);
    }
  }

  /** ... and there is only one way to batch. */
  lemma {:induction false} BatchesUnique<T>(size: int, bs: seq<seq<T>>)
    requires forall i | 0 <= i < |bs| :: 1 <= |bs[i]| <= (if size < 1 then 1 else size)
    requires forall i | 0 <= i < |bs| - 1 :: |bs[i]| == (if size < 1 then 1 else size)
    ensures Batches(size, Flatten(bs)) == bs
  {
    if bs != [] {
      var rest := bs[1..];
      var items := Flatten(bs);
      BatchesUnique(size, rest);
      assert items == bs[0] + Flatten(rest);
      if rest == [] {
        assert items == bs[0];
        assert bs == [bs[0]];
      } else {
        assert Flatten(rest) == rest[0] + Flatten(rest[1..]);
        assert items[..|bs[0]|] == bs[0];
        assert items[|bs[0]|..] == Flatten(rest);
        assert bs == [bs[0]] + rest;
      }
    }
  }

  function Hashes(hs: seq<Hashed>): set<Uuid> {
    set h | h in hs :: h.hash
  }

  function Uids(hs: seq<Hashed>): set<Uid> {
    set h | h in hs :: h.uid
  }

  /** The group ids a list of documents names. */
  function Groups(key: SourceKey, hs: seq<Hashed>): set<string> {
    set h | h in hs && SourceOf(key, h.doc).Text? :: SourceOf(key, h.doc).s
  }

  /** The first document of each hash, in input order. */
  function Dedup(hs: seq<Hashed>): seq<Hashed> {
    if hs == [] then []
    else
      var front := Dedup(hs[..|hs| - 1]);
      var last := hs[|hs| - 1];
      if last.hash in Hashes(front) then front else front + [last]
  }

  predicate DistinctHashes(hs: seq<Hashed>) {
    forall i, j | 0 <= i < j < |hs| :: hs[i].hash != hs[j].hash
  }

  predicate DistinctUids(hs: seq<Hashed>) {
    forall i, j | 0 <= i < j < |hs| :: hs[i].uid != hs[j].uid
  }

  lemma {:induction false} UidsAtMost(hs: seq<Hashed>)
    ensures |Uids(hs)| <= |hs|
    ensures |Uids(hs)| == |hs| <==> DistinctUids(hs)
  {
    if hs != [] {
      var n := |hs| - 1;
      UidsAtMost(hs[..n]);
      assert hs == hs[..n] + [hs[n]];
      assert Uids(hs) == Uids(hs[..n]) + {hs[n].uid};
      LastUid(hs);
    }
  }

  lemma LastUid(hs: seq<Hashed>)
    requires hs != []
    ensures var n := |hs| - 1; DistinctUids(hs) <==> DistinctUids(hs[..n]) && hs[n].uid !in Uids(hs[..n])
  {
    var n := |hs| - 1;
    forall i | 0 <= i < n ensures hs[..n][i] == hs[i] && hs[i].uid in Uids(hs[..n]) { assert hs[..n][i] in hs[..n]; }
  }

  /** How many documents come under a uid that another one of the list has already. */
  function Surplus(hs: seq<Hashed>): nat {
    UidsAtMost(hs);
    |hs| - |Uids(hs)|
  }

  lemma NoSurplus(hs: seq<Hashed>)
    ensures Surplus(hs) == 0 <==> DistinctUids(hs)
  {
    UidsAtMost(hs);
  }

  lemma {:induction false} DedupKeepsEachHashOnce(hs: seq<Hashed>)
    ensures DistinctHashes(Dedup(hs))
    ensures Hashes(Dedup(hs)) == Hashes(hs)
    ensures forall h | h in Dedup(hs) :: h in hs
  {
    if hs != [] {
      var front, last := hs[..|hs| - 1], hs[|hs| - 1];
      DedupKeepsEachHashOnce(front);
      assert hs == front + [last];
      assert Hashes(hs) == Hashes(front) + {last.hash};
      if last.hash !in Hashes(Dedup(front)) {
        assert Hashes(Dedup(front) + [last]) == Hashes(Dedup(front)) + {last.hash};
        forall i | 0 <= i < |Dedup(front)| ensures Dedup(front)[i].hash != last.hash {
          assert Dedup(front)[i] in Dedup(front);
        }
      }
    }
  }

  /** Documents a run looks at: each batch hashed and deduplicated on its own. */
  function Kept(h: Hasher, batches: seq<seq<Document>>): seq<Hashed> {
    if batches == [] then []
    else Kept(h, batches[..|batches| - 1]) + Dedup(HashList(h, batches[|batches| - 1]))
  }

  function HashList(h: Hasher, docs: seq<Document>): (hs: seq<Hashed>)
    ensures |hs| == |docs|
    ensures forall i | 0 <= i < |hs| :: hs[i] == FromDocument(h, docs[i])
  {
    seq(|docs|, i requires 0 <= i < |docs| => FromDocument(h, docs[i]))
  }

  /**
    The assumption on the hash functions: documents of the run with the same hash
    have the same uid and the same source. Collision-free hashing of documents
    without preset uids implies it (`CollisionFreeIsFaithful`).
   */
  ghost predicate Faithful(h: Hasher, key: SourceKey, docs: seq<Document>) {
    forall d, e | d in docs && e in docs && HashOf(h, d) == HashOf(h, e) ::
      && FromDocument(h, d).uid == FromDocument(h, e).uid
      && SourceOf(key, d) == SourceOf(key, e)
  }

  predicate NoPresetUids(docs: seq<Document>) {
    forall d | d in docs :: d.uid == ""
  }

  lemma CollisionFreeIsFaithful(h: Hasher, key: SourceKey, docs: seq<Document>)
    requires NoPresetUids(docs)
    requires forall d, e | d in docs && e in docs && HashOf(h, d) == HashOf(h, e) ::
               d.pageContent == e.pageContent && d.metadata == e.metadata
    ensures Faithful(h, key, docs)
  {
    forall d, e | d in docs && e in docs && HashOf(h, d) == HashOf(h, e)
      ensures SourceOf(key, d) == SourceOf(key, e)
    {
      assert d == e;
    }
  }

  /** The uids and groups of what the run keeps do not depend on the batch size. */
  lemma {:induction false} KeptUidsAndGroups(h: Hasher, key: SourceKey, batches: seq<seq<Document>>)
    requires Faithful(h, key, Flatten(batches))
    ensures Uids(Kept(h, batches)) == Uids(HashList(h, Flatten(batches)))
    ensures Groups(key, Kept(h, batches)) == Groups(key, HashList(h, Flatten(batches)))
  {
    if batches != [] {
      var front, last := batches[..|batches| - 1], batches[|batches| - 1];
      assert batches == front + [last];
      FlattenAppend(front, last);
      FaithfulParts(h, key, Flatten(front), last);
      KeptUidsAndGroups(h, key, front);
      DedupUidsAndGroups(h, key, last);
      HashListAppend(h, Flatten(front), last);
      UnionOfLists(key, HashList(h, Flatten(front)), HashList(h, last));
      UnionOfLists(key, Kept(h, front), Dedup(HashList(h, last)));
    } else {
      assert Flatten(batches) == [];
    }
  }

  lemma FaithfulParts(h: Hasher, key: SourceKey, a: seq<Document>, b: seq<Document>)
    requires Faithful(h, key, a + b)
    ensures Faithful(h, key, a) && Faithful(h, key, b)
  {
    forall d | d in a || d in b ensures d in a + b { }
  }

  lemma HashListAppend(h: Hasher, a: seq<Document>, b: seq<Document>)
    ensures HashList(h, a + b) == HashList(h, a) + HashList(h, b)
  {
  }

  lemma UnionOfLists(key: SourceKey, a: seq<Hashed>, b: seq<Hashed>)
    ensures Uids(a + b) == Uids(a) + Uids(b)
    ensures Groups(key, a + b) == Groups(key, a) + Groups(key, b)
  {
    forall g | g in Groups(key, a + b) ensures g in Groups(key, a) + Groups(key, b) {
      var x :| x in a + b && SourceOf(key, x.doc).Text? && SourceOf(key, x.doc).s == g;
      assert x in a || x in b;
    }
    forall g | g in Groups(key, a) + Groups(key, b) ensures g in Groups(key, a + b) {
      var x :| (x in a || x in b) && SourceOf(key, x.doc).Text? && SourceOf(key, x.doc).s == g;
      assert x in a + b;
    }
  }

  /** Equal hashes stand for each other: same uid, same source. */
  lemma SameHashSameSource(h: Hasher, key: SourceKey, docs: seq<Document>, x: Hashed, y: Hashed)
    requires Faithful(h, key, docs)
    requires x in HashList(h, docs) && y in HashList(h, docs) && x.hash == y.hash
    ensures x.uid == y.uid && SourceOf(key, x.doc) == SourceOf(key, y.doc)
  {
    assert x.doc in docs && y.doc in docs;
  }

  lemma DedupUidsAndGroups(h: Hasher, key: SourceKey, docs: seq<Document>)
    requires Faithful(h, key, docs)
    ensures Uids(Dedup(HashList(h, docs))) == Uids(HashList(h, docs))
    ensures Groups(key, Dedup(HashList(h, docs))) == Groups(key, HashList(h, docs))
  {
    var hs := HashList(h, docs);
    var ds := Dedup(hs);
    DedupKeepsEachHashOnce(hs);
    forall x | x in hs
      ensures x.uid in Uids(ds)
      ensures SourceOf(key, x.doc).Text? ==> SourceOf(key, x.doc).s in Groups(key, ds)
    {
      assert x.hash in Hashes(ds);
      var y :| y in ds && y.hash == x.hash;
      SameHashSameSource(h, key, docs, x, y);
    }
  }

  /** Documents with the same uid have the same hash. */
  predicate UidsApart(h: Hasher, docs: seq<Document>) {
    forall d, e | d in docs && e in docs && FromDocument(h, d).uid == FromDocument(h, e).uid :: HashOf(h, d) == HashOf(h, e)
  }

  /** So without preset uids. */
  lemma PresetsApart(h: Hasher, docs: seq<Document>)
    requires NoPresetUids(docs)
    ensures UidsApart(h, docs) && Faithful(h, NoKey, docs)
  {
  }

  /** Then a batch never names a uid twice. */
  lemma DedupDistinctUids(h: Hasher, docs: seq<Document>)
    requires UidsApart(h, docs)
    ensures DistinctUids(Dedup(HashList(h, docs)))
  {
    var hs := HashList(h, docs);
    DedupKeepsEachHashOnce(hs);
    var ds := Dedup(hs);
    forall i, j | 0 <= i < j < |ds| ensures ds[i].uid != ds[j].uid {
      assert ds[i] in hs && ds[j] in hs;
    }
  }

  // ---------- the two stores ----------

  /** Readings of the database clock, seconds after its epoch. */
  type Time = t: nat | 0 < t witness 1

  datatype Record = Record(updatedAt: Time, group: Option<string>, docId: Option<string>)
  type Records = map<Uid, Record>

  datatype Stored = Stored(pageContent: string, metadata: Metadata)
  type Stores = map<Uid, Stored>

  function ToDocument(h: Hashed): Stored {
    Stored(h.doc.pageContent, h.doc.metadata)
  }

  predicate Stale(r: Record, start: Time) {
    r.updatedAt < start
  }

  predicate InStep(records: Records, docs: Stores) {
    records.Keys == docs.Keys
  }

  /** Every record stamped by this run (or later) has its document. */
  predicate FreshBacked(records: Records, docs: Stores, start: Time) {
    forall k | k in records && !Stale(records[k], start) :: k in docs
  }

  datatype CleanupMode = NoCleanup | Incremental | Full

  /** Old keys the cleanup of `kept` removes: stale, in a group that was seen, not kept. */
  function Removed(before: Records, start: Time, uids: set<Uid>, groups: set<string>): set<Uid> {
    set k | k in before && k !in uids && Stale(before[k], start) && before[k].group.Some? && before[k].group.value in groups
  }

  /**
    What processing the documents `kept` does to the record manager: their uids are
    present and freshly stamped, the removed keys are gone, the rest is untouched.
   */
  ghost predicate RecordsEffect(before: Records, after: Records, start: Time, uids: set<Uid>, groups: set<string>) {
    && after.Keys == (before.Keys + uids) - Removed(before, start, uids, groups)
    && (forall k | k in after && k in uids :: !Stale(after[k], start))
    && (forall k | k in after && k !in uids :: after[k] == before[k])
  }

  /** Effects of consecutive batches add up, although a later batch may re-add what an earlier one removed. */
  lemma RecordsEffectCompose(a: Records, b: Records, c: Records, start: Time,
                             u1: set<Uid>, g1: set<string>, u2: set<Uid>, g2: set<string>)
    requires RecordsEffect(a, b, start, u1, g1) && RecordsEffect(b, c, start, u2, g2)
    ensures RecordsEffect(a, c, start, u1 + u2, g1 + g2)
  {
    forall k
      ensures k in c <==> k in (a.Keys + (u1 + u2)) - Removed(a, start, u1 + u2, g1 + g2)
    {
      if k in u1 && k !in u2 {
        assert k in b && !Stale(b[k], start);
      }
    }
  }

  /** Documents are only ever written with the content of a kept document of that uid. */
  ghost predicate DocsEffect(before: Stores, after: Stores, kept: seq<Hashed>, force: bool) {
    forall k | k in after ::
      || (k in before && after[k] == before[k] && (force ==> k !in Uids(kept)))
      || exists h | h in kept :: h.uid == k && after[k] == ToDocument(h)
  }

  lemma DocsEffectCompose(a: Stores, b: Stores, c: Stores, k1: seq<Hashed>, k2: seq<Hashed>, force: bool)
    requires DocsEffect(a, b, k1, force) && DocsEffect(b, c, k2, force)
    ensures DocsEffect(a, c, k1 + k2, force)
  {
    forall k | k in c
      ensures || (k in a && c[k] == a[k] && (force ==> k !in Uids(k1 + k2)))
              || exists h | h in k1 + k2 :: h.uid == k && c[k] == ToDocument(h)
    {
      if h :| h in k2 && h.uid == k && c[k] == ToDocument(h) {
        assert h in k1 + k2;
      } else {
        assert k in b && c[k] == b[k] && (force ==> k !in Uids(k2));
        if h :| h in k1 && h.uid == k && b[k] == ToDocument(h) {
          assert h in k1 + k2;
        }
      }
    }
  }

  ghost predicate DocIdFrom(kept: seq<Hashed>, k: Uid, docId: Option<string>) {
    exists h | h in kept :: h.uid == k && docId == DocIdOf(h)
  }

  ghost predicate GroupFrom(key: SourceKey, kept: seq<Hashed>, k: Uid, group: Option<string>) {
    exists h | h in kept :: h.uid == k && group == GroupArg(SourceOf(key, h.doc))
  }

  /** A record of a kept uid carries the document id of a kept document; a group is an old one or the source of a kept document. */
  ghost predicate OriginsEffect(before: Records, after: Records, key: SourceKey, kept: seq<Hashed>) {
    && (forall k | k in after && k in Uids(kept) :: DocIdFrom(kept, k, after[k].docId))
    && (forall k | k in after :: (k in before && after[k].group == before[k].group) || GroupFrom(key, kept, k, after[k].group))
  }

  lemma OriginsEffectCompose(a: Records, b: Records, c: Records, key: SourceKey, k1: seq<Hashed>, k2: seq<Hashed>)
    requires OriginsEffect(a, b, key, k1) && OriginsEffect(b, c, key, k2)
    requires forall k | k in c && k !in Uids(k2) :: k in b && c[k] == b[k]
    ensures OriginsEffect(a, c, key, k1 + k2)
  {
    forall k | k in c && k in Uids(k1 + k2) ensures DocIdFrom(k1 + k2, k, c[k].docId) {
      if k in Uids(k2) {
        FromLonger(key, k1, k2, k, c[k]);
      } else {
        FromLonger(key, k1, k2, k, b[k]);
      }
    }
    forall k | k in c ensures (k in a && c[k].group == a[k].group) || GroupFrom(key, k1 + k2, k, c[k].group) {
      FromLonger(key, k1, k2, k, c[k]);
    }
  }

  lemma FromLonger(key: SourceKey, k1: seq<Hashed>, k2: seq<Hashed>, k: Uid, r: Record)
    ensures DocIdFrom(k1, k, r.docId) || DocIdFrom(k2, k, r.docId) ==> DocIdFrom(k1 + k2, k, r.docId)
    ensures GroupFrom(key, k1, k, r.group) || GroupFrom(key, k2, k, r.group) ==> GroupFrom(key, k1 + k2, k, r.group)
  {
    assert forall h | h in k1 || h in k2 :: h in k1 + k2;
  }

  /** The keys a finished run leaves in both stores, as a function of its input alone. */
  function FinalKeys(before: Records, start: Time, mode: CleanupMode, uids: set<Uid>, groups: set<string>): set<Uid> {
    match mode
    case NoCleanup => before.Keys + uids
    case Incremental => (before.Keys + uids) - Removed(before, start, uids, groups)
    case Full => uids + set k | k in before && !Stale(before[k], start)
  }

  /** The final keys of a run over `docs` are those of `docs` taken whole, without batches. */
  lemma FinalKeysOfDocuments(h: Hasher, key: SourceKey, docs: seq<Document>, size: int,
                             before: Records, start: Time, mode: CleanupMode)
    requires Faithful(h, key, docs)
    ensures var kept, all := Kept(h, Batches(size, docs)), HashList(h, docs);
            FinalKeys(before, start, mode, Uids(kept), Groups(key, kept)) == FinalKeys(before, start, mode, Uids(all), Groups(key, all))
  {
    BatchesPartition(size, docs);
    KeptUidsAndGroups(h, key, Batches(size, docs));
  }

  /** When every old record is stale, the start time of the run does not matter either. */
  lemma FinalKeysOfStaleStore(before: Records, start: Time, mode: CleanupMode, uids: set<Uid>, groups: set<string>)
    requires forall k | k in before :: Stale(before[k], start)
    ensures mode.Full? ==> FinalKeys(before, start, mode, uids, groups) == uids
    ensures mode.Incremental? ==>
              FinalKeys(before, start, mode, uids, groups)
              == uids + set k | k in before && (before[k].group == None || before[k].group.value !in groups)
  {
  }

  // ---------- the stores as the code calls them ----------

  datatype KeyArg = KeyArg(uid: Uid, docId: Option<string>)

  function GroupArg(s: Source): Option<string> {
    if s.Text? then Some(s.s) else None
  }

  function GroupArgs(sources: seq<Source>): seq<Option<string>> {
    seq(|sources|, i requires 0 <= i < |sources| => GroupArg(sources[i]))
  }

  function NoGroups(n: nat): seq<Option<string>> {
    seq(n, i => None)
  }

  /** INSERT ... ON CONFLICT DO UPDATE, one key after the other: a known key keeps its group. */
  function Upsert(rs: Records, keys: seq<KeyArg>, groups: seq<Option<string>>, stamp: Time, n: nat): Records
    requires n <= |keys| == |groups|
  {
    if n == 0 then rs
    else
      var prev := Upsert(rs, keys, groups, stamp, n - 1);
      var k := keys[n - 1];
      prev[k.uid := Record(stamp, if k.uid in prev then prev[k.uid].group else groups[n - 1], k.docId)]
  }

  function KeySet(keys: seq<KeyArg>): set<Uid> {
    set k | k in keys :: k.uid
  }

  lemma {:induction false} UpsertEffect(rs: Records, keys: seq<KeyArg>, groups: seq<Option<string>>, stamp: Time, n: nat)
    requires n <= |keys| == |groups|
    ensures var after := Upsert(rs, keys, groups, stamp, n);
            && after.Keys == rs.Keys + KeySet(keys[..n])
            && (forall k | k in KeySet(keys[..n]) :: after[k].updatedAt == stamp)
            && (forall k | k in rs :: after[k].group == rs[k].group)
            && (forall k | k in rs && k !in KeySet(keys[..n]) :: after[k] == rs[k])
  {
    if n > 0 {
      UpsertEffect(rs, keys, groups, stamp, n - 1);
      assert keys[..n] == keys[..n - 1] + [keys[n - 1]];
      assert KeySet(keys[..n]) == KeySet(keys[..n - 1]) + {keys[n - 1].uid};
    }
  }

  /** Every written record carries the document id, and every new one the group, that came with its key. */
  lemma {:induction false} UpsertOrigins(rs: Records, keys: seq<KeyArg>, groups: seq<Option<string>>, stamp: Time, n: nat)
    requires n <= |keys| == |groups|
    ensures var after := Upsert(rs, keys, groups, stamp, n);
            && (forall k | k in KeySet(keys[..n]) ::
                  k in after && exists i | 0 <= i < n :: keys[i].uid == k && after[k].docId == keys[i].docId)
            && (forall k | k in after && k !in rs :: exists i | 0 <= i < n :: keys[i].uid == k && after[k].group == groups[i])
  {
    if n > 0 {
      UpsertOrigins(rs, keys, groups, stamp, n - 1);
      var prev, after, last := Upsert(rs, keys, groups, stamp, n - 1), Upsert(rs, keys, groups, stamp, n), keys[n - 1];
      assert keys[..n] == keys[..n - 1] + [last];
      forall k | k in KeySet(keys[..n])
        ensures k in after && exists i | 0 <= i < n :: keys[i].uid == k && after[k].docId == keys[i].docId
      {
        if k == last.uid {
          assert after[k].docId == keys[n - 1].docId;
        } else {
          assert k in KeySet(keys[..n - 1]);
        }
      }
      forall k | k in after && k !in rs ensures exists i | 0 <= i < n :: keys[i].uid == k && after[k].group == groups[i] {
        if k !in prev {
          assert after[k].group == groups[n - 1];
        }
      }
    }
  }

  function AsSet<T(==)>(s: seq<T>): set<T> {
    set x | x in s
  }

  function PutAll(vs: Stores, docs: seq<Stored>, ids: seq<Uid>, n: nat): Stores
    requires n <= |docs| == |ids|
  {
    if n == 0 then vs else PutAll(vs, docs, ids, n - 1)[ids[n - 1] := docs[n - 1]]
  }

  lemma {:induction false} PutAllEffect(vs: Stores, docs: seq<Stored>, ids: seq<Uid>, n: nat)
    requires n <= |docs| == |ids|
    ensures var after := PutAll(vs, docs, ids, n);
            && after.Keys == vs.Keys + AsSet(ids[..n])
            && (forall k | k in vs && k !in ids[..n] :: k in after && after[k] == vs[k])
            && (forall k | k in ids[..n] :: k in after && exists i | 0 <= i < n :: ids[i] == k && after[k] == docs[i])
  {
    if n > 0 {
      PutAllEffect(vs, docs, ids, n - 1);
      assert ids[..n] == ids[..n - 1] + [ids[n - 1]];
      assert AsSet(ids[..n]) == AsSet(ids[..n - 1]) + {ids[n - 1]};
      var after := PutAll(vs, docs, ids, n);
      forall k | k in ids[..n] ensures k in after && exists i | 0 <= i < n :: ids[i] == k && after[k] == docs[i] {
        if k == ids[n - 1] {
          assert after[k] == docs[n - 1];
        } else {
          assert k in ids[..n - 1];
        }
      }
    }
  }

  /** The rows a `listKeys` query selects before its LIMIT. */
  function Matching(rs: Records, before: Option<Time>, groups: Option<set<string>>): set<Uid> {
    set k | k in rs
         && (before.None? || Stale(rs[k], before.value))
         && (groups.None? || (rs[k].group.Some? && rs[k].group.value in groups.value))
  }

  /** The record manager; `clock(n)` is the n-th answer of the database clock. */
  class RecordManager {
    var records: Records
    var readings: nat
    const clock: nat -> Time

    constructor (clock: nat -> Time)
      ensures records == map[] && this.clock == clock
    {
      records := map[];
      readings := 0;
      this.clock := clock;
    }

    method GetTime() returns (t: Time)
      modifies this`readings
      ensures t == clock(old(readings)) && readings == old(readings) + 1
    {
      t := clock(readings);
      readings := readings + 1;
    }

    method Exists(keys: seq<Uid>) returns (found: seq<bool>)
      ensures |found| == |keys|
      ensures forall i | 0 <= i < |keys| :: found[i] == (keys[i] in records)
    {
      found := seq(|keys|, i requires 0 <= i < |keys| reads this => keys[i] in records);
    }

    method Update(keys: seq<KeyArg>, timeAtLeast: Time, groupIds: Option<seq<Source>>) returns (ok: bool)
      requires groupIds.Some? ==> |groupIds.value| == |keys|
      modifies this
      ensures keys == [] ==> ok && records == old(records) && readings == old(readings)
      ensures keys != [] ==> ok == (timeAtLeast <= clock(old(readings))) && readings == old(readings) + 1
      ensures !ok ==> records == old(records)
      ensures keys != [] && ok ==>
                var groups := if groupIds.None? then NoGroups(|keys|) else GroupArgs(groupIds.value);
                records == Upsert(old(records), keys, groups, clock(old(readings)), |keys|)
    {
      if keys == [] {
        return true;
      }
      var updatedAt := GetTime();
      if updatedAt < timeAtLeast {
        return false;
      }
      var groups := if groupIds.None? then NoGroups(|keys|) else GroupArgs(groupIds.value);
      ghost var before := records;
      for n := 0 to |keys|
        invariant records == Upsert(before, keys, groups, updatedAt, n) && readings == old(readings) + 1
      {
        var group := if keys[n].uid in records then records[keys[n].uid].group else groups[n];
        records := records[keys[n].uid := Record(updatedAt, group, keys[n].docId)];
      }
      ok := true;
    }

    /** The order and, under a limit, the choice of the rows is the database's. */
    method ListKeys(before: Option<Time>, groups: Option<set<string>>, limit: Option<nat>) returns (keys: seq<Uid>)
      ensures forall i, j | 0 <= i < j < |keys| :: keys[i] != keys[j]
      ensures AsSet(keys) <= Matching(records, before, groups)
      ensures limit.None? || limit.value == 0 ==> AsSet(keys) == Matching(records, before, groups)
      ensures |keys| == 0 ==> Matching(records, before, groups) == {}
      ensures limit.None? || limit.value == 0 ==> |keys| == |Matching(records, before, groups)|
    {
      keys := [];
      var rest := Matching(records, before, groups);
      while rest != {} && (limit.None? || limit.value == 0 || |keys| < limit.value)
        invariant forall i, j | 0 <= i < j < |keys| :: keys[i] != keys[j]
        invariant AsSet(keys) !! rest
        invariant AsSet(keys) + rest == Matching(records, before, groups)
        invariant |keys| + |rest| == |Matching(records, before, groups)|
        decreases |rest|
      {
        var k :| k in rest;
        keys := keys + [k];
        rest := rest - {k};
      }
    }

    method DeleteKeys(keys: seq<Uid>)
      modifies this`records
      ensures records == old(records) - AsSet(keys)
    {
      records := records - AsSet(keys);
    }
  }

  /** From this reading on the clock never falls behind `start`. */
  ghost predicate Steady(clock: nat -> Time, first: nat, start: Time) {
    forall n: nat | first <= n :: start <= clock(n)
  }

  class VectorStore {
    var docs: Stores

    constructor ()
      ensures docs == map[]
    {
      docs := map[];
    }

    method AddDocuments(added: seq<Stored>, ids: seq<Uid>)
      requires |added| == |ids|
      modifies this
      ensures docs == PutAll(old(docs), added, ids, |ids|)
    {
      ghost var before := docs;
      for n := 0 to |ids|
        invariant docs == PutAll(before, added, ids, n)
      {
        docs := docs[ids[n] := added[n]];
      }
    }

    method Delete(ids: seq<Uid>)
      modifies this
      ensures docs == old(docs) - AsSet(ids)
    {
      docs := docs - AsSet(ids);
    }
  }

  // ---------- the run ----------

  lemma TakeNext<T>(flat: seq<T>, current: seq<T>, all: seq<T>, i: nat)
    requires i < |all| && flat + current == all[..i]
    ensures flat + (current + [all[i]]) == all[..i + 1] && (flat + (current + [all[i]])) + [] == all[..i + 1]
  {
    assert flat + (current + [all[i]]) == (flat + current) + [all[i]];
  }

  /** `_batch`. */
  method Batch<T>(size: int, iterable: seq<T>) returns (batches: seq<seq<T>>)
    ensures batches == Batches(size, iterable)
  {
    batches := [];
    var currentBatch: seq<T> := [];
    for i := 0 to |iterable|
      invariant Flatten(batches) + currentBatch == iterable[..i]
      invariant forall b | b in batches :: |b| == if size < 1 then 1 else size
      invariant |currentBatch| < if size < 1 then 1 else size
    {
      TakeNext(Flatten(batches), currentBatch, iterable, i);
      currentBatch := currentBatch + [iterable[i]];
      if |currentBatch| >= size {
        FlattenAppend(batches, currentBatch);
        batches := batches + [currentBatch];
        currentBatch := [];
      }
    }
    if |currentBatch| > 0 {
      FlattenAppend(batches, currentBatch);
      batches := batches + [currentBatch];
    }
    assert Flatten(batches) == iterable;
    BatchesUnique(size, batches);
  }

  /** `_deduplicateInOrder`. */
  method DeduplicateInOrder(hashedDocuments: seq<Hashed>) returns (deduplicated: seq<Hashed>)
    ensures deduplicated == Dedup(hashedDocuments)
  {
    var seen: set<Uuid> := {};
    deduplicated := [];
    for i := 0 to |hashedDocuments|
      invariant deduplicated == Dedup(hashedDocuments[..i])
      invariant seen == Hashes(deduplicated)
    {
      assert hashedDocuments[..i + 1] == hashedDocuments[..i] + [hashedDocuments[i]];
      assert hashedDocuments[..i + 1][..i] == hashedDocuments[..i];
      if hashedDocuments[i].hash !in seen {
        seen := seen + {hashedDocuments[i].hash};
        deduplicated := deduplicated + [hashedDocuments[i]];
      }
    }
    assert hashedDocuments[..|hashedDocuments|] == hashedDocuments;
  }

  datatype Counts = Counts(added: int, updated: int, skipped: int, deleted: int) {
    function Plus(o: Counts): Counts {
      Counts(added + o.added, updated + o.updated, skipped + o.skipped, deleted + o.deleted)
    }

    function Deleting(n: nat): Counts {
      Counts(added, updated, skipped, deleted + n)
    }

    function ButDeleted(): Counts {
      Counts(added, updated, skipped, 0)
    }
  }

  /** The counters but for deletions, and the documents added. */
  datatype Tallied = Tallied(counts: Counts, added: seq<Stored>) {
    function Then(o: Tallied): Tallied {
      Tallied(counts.Plus(o.counts), added + o.added)
    }
  }

  lemma OnlyDeletions(c: Counts, n: nat)
    ensures c.Deleting(n).ButDeleted() == c.ButDeleted()
  {
  }

  datatype Options = Options(batchSize: int, cleanup: CleanupMode, sourceIdKey: SourceKey,
                             cleanupBatchSize: nat, forceUpdate: bool)

  datatype IndexingResult = IndexingResult(counts: Counts, totalKeys: nat, addedDocs: seq<Stored>)

  /** Both stores at one moment of a run. */
  datatype Snapshot = Snapshot(records: Records, docs: Stores)

  /** A call that changed one of the stores. */
  datatype Call =
    | Updated(keys: seq<KeyArg>, groups: seq<Option<string>>, stamp: Time)
    | Added(docs: seq<Stored>, ids: seq<Uid>)
    | DocsDeleted(ids: seq<Uid>)
    | KeysDeleted(ids: seq<Uid>)
  {
    predicate OnRecords() {
      Updated? || KeysDeleted?
    }
  }

  /** What a call makes of the stores. */
  function Effect(c: Call, s: Snapshot): Snapshot {
    match c
    case Updated(keys, groups, stamp) =>
      if |keys| == |groups| then s.(records := Upsert(s.records, keys, groups, stamp, |keys|)) else s
    case Added(docs, ids) => if |docs| == |ids| then s.(docs := PutAll(s.docs, docs, ids, |ids|)) else s
    case DocsDeleted(ids) => s.(docs := s.docs - AsSet(ids))
    case KeysDeleted(ids) => s.(records := s.records - AsSet(ids))
  }

  /** The stores after some calls, one after the other. */
  function Replay(origin: Snapshot, calls: seq<Call>): Snapshot {
    if calls == [] then origin else Effect(calls[|calls| - 1], Replay(origin, calls[..|calls| - 1]))
  }

  /** Fresh records have their documents, and right behind a call on the record manager the key sets are equal. */
  predicate SafeAfter(s: Snapshot, last: Call, start: Time) {
    FreshBacked(s.records, s.docs, start) && (last.OnRecords() ==> InStep(s.records, s.docs))
  }

  /** The stores are safe after each of the calls. */
  ghost predicate SafeRun(origin: Snapshot, calls: seq<Call>, start: Time) {
    forall n | 0 < n <= |calls| :: SafeAfter(Replay(origin, calls[..n]), calls[n - 1], start)
  }

  /** Updates alone or behind an addition, and deletions from both stores of the same keys, the vector store first. */
  predicate Settled(calls: seq<Call>) {
    var n := |calls|;
    n == 0 ||
    match calls[n - 1]
    case Updated(_, _, _) => Settled(calls[..n - 1]) || (n >= 2 && calls[n - 2].Added? && Settled(calls[..n - 2]))
    case KeysDeleted(ids) => n >= 2 && calls[n - 2] == DocsDeleted(ids) && Settled(calls[..n - 2])
    case _ => false
  }

  /** ... or also an addition at the end whose update is still to come. */
  predicate Open(calls: seq<Call>) {
    Settled(calls) || (calls != [] && calls[|calls| - 1].Added? && Settled(calls[..|calls| - 1]))
  }

  lemma OneMoreCall(origin: Snapshot, calls: seq<Call>, c: Call, start: Time)
    ensures Replay(origin, calls + [c]) == Effect(c, Replay(origin, calls))
    ensures SafeRun(origin, calls, start) && SafeAfter(Effect(c, Replay(origin, calls)), c, start) ==> SafeRun(origin, calls + [c], start)
  {
    var more := calls + [c];
    CallsBefore(calls, c);
    assert more[..|calls|] == calls;
  }

  lemma CallsBefore(calls: seq<Call>, c: Call)
    ensures (calls + [c])[..|calls|] == calls && (calls + [c])[..|calls| + 1] == calls + [c]
    ensures forall n | 0 < n <= |calls| :: (calls + [c])[..n] == calls[..n] && (calls + [c])[n - 1] == calls[n - 1]
  {
  }

  lemma Settling(calls: seq<Call>, c: Call)
    ensures c.Updated? && Open(calls) ==> Settled(calls + [c])
    ensures c.Added? && Settled(calls) ==> Open(calls + [c])
    ensures c.DocsDeleted? && Settled(calls) ==> Settled(calls + [c] + [KeysDeleted(c.ids)])
  {
    assert (calls + [c])[..|calls|] == calls;
    if calls != [] {
      assert (calls + [c])[..|calls| - 1] == calls[..|calls| - 1];
    }
    if c.DocsDeleted? {
      assert (calls + [c] + [KeysDeleted(c.ids)])[..|calls|] == calls;
    }
  }

  lemma BatchSettles(trace0: seq<Call>, docs: seq<Stored>, uids: seq<Uid>, trace1: seq<Call>,
                     keys: seq<KeyArg>, groups: seq<Option<string>>, stamp: Time, trace2: seq<Call>, ok: bool)
    requires Settled(trace0) && (docs != [] ==> keys != [])
    requires trace1 == trace0 + if docs != [] then [Added(docs, uids)] else []
    requires trace2 == trace1 + if ok && keys != [] then [Updated(keys, groups, stamp)] else []
    ensures Open(trace2) && (ok ==> Settled(trace2))
  {
    assert trace0 + [] == trace0 && trace1 + [] == trace1;
    Settling(trace0, Added(docs, uids));
    Settling(trace1, Updated(keys, groups, stamp));
  }

  function DocIdOf(h: Hashed): Option<string> {
    if "docId" in h.doc.metadata then h.doc.metadata["docId"] else None
  }

  function KeyArgs(hs: seq<Hashed>): (ks: seq<KeyArg>)
    ensures |ks| == |hs|
    ensures KeySet(ks) == Uids(hs)
  {
    var ks := seq(|hs|, i requires 0 <= i < |hs| => KeyArg(hs[i].uid, DocIdOf(hs[i])));
    assert forall i | 0 <= i < |hs| :: ks[i].uid == hs[i].uid;
    ks
  }

  /** The documents a batch writes to the vector store; `known` are the uids with a record. */
  function ToIndex(hs: seq<Hashed>, known: set<Uid>, force: bool): seq<Hashed> {
    if hs == [] then []
    else
      var front, last := ToIndex(hs[..|hs| - 1], known, force), hs[|hs| - 1];
      if last.uid in known && !force then front else front + [last]
  }

  /** The documents a batch only restamps. */
  function ToRestamp(hs: seq<Hashed>, known: set<Uid>, force: bool): seq<Hashed> {
    if hs == [] then []
    else
      var front, last := ToRestamp(hs[..|hs| - 1], known, force), hs[|hs| - 1];
      if last.uid in known && !force then front + [last] else front
  }

  function CountsOf(hs: seq<Hashed>, known: set<Uid>, force: bool): Counts {
    var updated := if force then |Uids(hs) * known| else 0;
    Counts(|ToIndex(hs, known, force)| - updated, updated, |ToRestamp(hs, known, force)|, 0)
  }

  function BatchTally(hs: seq<Hashed>, known: set<Uid>, force: bool): Tallied {
    Tallied(CountsOf(hs, known, force), Contents(ToIndex(hs, known, force)))
  }

  lemma {:induction false} ToIndexEffect(hs: seq<Hashed>, known: set<Uid>, force: bool)
    ensures Uids(ToIndex(hs, known, force)) == if force then Uids(hs) else Uids(hs) - known
  {
    if hs != [] {
      var front, last := hs[..|hs| - 1], hs[|hs| - 1];
      ToIndexEffect(front, known, force);
      assert hs == front + [last];
      UidsAppend(front, last);
      UidsAppend(ToIndex(front, known, force), last);
    }
  }

  lemma {:induction false} ToRestampEffect(hs: seq<Hashed>, known: set<Uid>, force: bool)
    ensures Uids(ToRestamp(hs, known, force)) == if force then {} else Uids(hs) * known
    ensures |ToIndex(hs, known, force)| + |ToRestamp(hs, known, force)| == |hs|
  {
    if hs != [] {
      var front, last := hs[..|hs| - 1], hs[|hs| - 1];
      ToRestampEffect(front, known, force);
      assert hs == front + [last];
      UidsAppend(front, last);
      UidsAppend(ToRestamp(front, known, force), last);
    }
  }

  lemma {:induction false} ToIndexWithin(hs: seq<Hashed>, known: set<Uid>, force: bool)
    ensures forall h | h in ToIndex(hs, known, force) :: h in hs
  {
    if hs != [] {
      ToIndexWithin(hs[..|hs| - 1], known, force);
    }
  }

  /** How many documents are written: one for every new uid, under force also for every known one, and the surplus. */
  lemma ToIndexCount(hs: seq<Hashed>, known: set<Uid>, force: bool)
    ensures |ToIndex(hs, known, force)|
            == |Uids(hs) - known| + (if force then |Uids(hs) * known| else 0) + Surplus(ToIndex(hs, known, force))
  {
    ToIndexEffect(hs, known, force);
    PartSizes(Uids(hs), known);
  }

  lemma PartSizes<T>(a: set<T>, b: set<T>)
    ensures |a| == |a - b| + |a * b|
  {
    assert a == (a - b) + (a * b);
  }

  function Contents(hs: seq<Hashed>): seq<Stored> {
    seq(|hs|, i requires 0 <= i < |hs| => ToDocument(hs[i]))
  }

  function UidList(hs: seq<Hashed>): seq<Uid> {
    seq(|hs|, i requires 0 <= i < |hs| => hs[i].uid)
  }

  lemma ListsAppend(hs: seq<Hashed>, h: Hashed)
    ensures UidList(hs + [h]) == UidList(hs) + [h.uid]
    ensures Contents(hs + [h]) == Contents(hs) + [ToDocument(h)]
    ensures KeyArgs(hs + [h]) == KeyArgs(hs) + [KeyArg(h.uid, DocIdOf(h))]
  {
  }

  lemma ClassifyStep(hs: seq<Hashed>, i: nat, known: set<Uid>, force: bool)
    requires i < |hs|
    ensures var skip := hs[i].uid in known && !force;
            && ToIndex(hs[..i + 1], known, force) == ToIndex(hs[..i], known, force) + (if skip then [] else [hs[i]])
            && ToRestamp(hs[..i + 1], known, force) == ToRestamp(hs[..i], known, force) + (if skip then [hs[i]] else [])
  {
    assert hs[..i + 1][..i] == hs[..i];
  }

  lemma UidsAppend(hs: seq<Hashed>, h: Hashed)
    ensures Uids(hs + [h]) == Uids(hs) + {h.uid}
  {
  }

  lemma SeenGrow(hs: seq<Hashed>, i: nat, known: set<Uid>)
    requires i < |hs|
    ensures Uids(hs[..i + 1]) * known == Uids(hs[..i]) * known + (if hs[i].uid in known then {hs[i].uid} else {})
  {
    assert hs[..i + 1] == hs[..i] + [hs[i]];
    UidsAppend(hs[..i], hs[i]);
  }

  /** The `hashedDocs.forEach` pass: what to add, what to restamp, what counts as an update. */
  method Classify(hashed: seq<Hashed>, found: seq<bool>, forceUpdate: bool, ghost known: set<Uid>)
    returns (uids: seq<Uid>, docsToIndex: seq<Stored>, docsToUpdate: seq<KeyArg>, seenDocs: set<Uid>)
    requires |found| == |hashed|
    requires forall i | 0 <= i < |hashed| :: found[i] == (hashed[i].uid in known)
    ensures uids == UidList(ToIndex(hashed, known, forceUpdate))
    ensures docsToIndex == Contents(ToIndex(hashed, known, forceUpdate))
    ensures docsToUpdate == KeyArgs(ToRestamp(hashed, known, forceUpdate))
    ensures seenDocs == if forceUpdate then Uids(hashed) * known else {}
  {
    uids, docsToIndex, docsToUpdate, seenDocs := [], [], [], {};
    for i := 0 to |hashed|
      invariant uids == UidList(ToIndex(hashed[..i], known, forceUpdate))
      invariant docsToIndex == Contents(ToIndex(hashed[..i], known, forceUpdate))
      invariant docsToUpdate == KeyArgs(ToRestamp(hashed[..i], known, forceUpdate))
      invariant seenDocs == if forceUpdate then Uids(hashed[..i]) * known else {}
    {
      var h := hashed[i];
      ClassifyStep(hashed, i, known, forceUpdate);
      ListsAppend(ToIndex(hashed[..i], known, forceUpdate), h);
      ListsAppend(ToRestamp(hashed[..i], known, forceUpdate), h);
      SeenGrow(hashed, i, known);
      if found[i] {
        if forceUpdate {
          seenDocs := seenDocs + {h.uid};
        } else {
          docsToUpdate := docsToUpdate + [KeyArg(h.uid, DocIdOf(h))];
          continue;
        }
      }
      uids := uids + [h.uid];
      docsToIndex := docsToIndex + [ToDocument(h)];
    }
    assert hashed[..|hashed|] == hashed;
  }

  /** The sources a batch names, in batch order. */
  function SourceIds(key: SourceKey, hs: seq<Hashed>): seq<Source> {
    seq(|hs|, i requires 0 <= i < |hs| => SourceOf(key, hs[i].doc))
  }

  function GroupIds(sources: seq<Source>): set<string> {
    set s | s in sources && s.Text? :: s.s
  }

  lemma GroupIdsOfSources(key: SourceKey, hs: seq<Hashed>)
    ensures GroupIds(SourceIds(key, hs)) == Groups(key, hs)
  {
    forall h | h in hs ensures SourceOf(key, h.doc) in SourceIds(key, hs) {
      var i :| 0 <= i < |hs| && hs[i] == h;
      assert SourceIds(key, hs)[i] == SourceOf(key, h.doc);
    }
  }

  /** Stamping the keys of a batch is the effect of that batch without its cleanup. */
  lemma StampEffect(before: Records, mid: Records, after: Records, start: Time, stamp1: Time, stamp2: Time,
                    re: seq<KeyArg>, g1: seq<Option<string>>, all: seq<KeyArg>, g2: seq<Option<string>>)
    requires |re| == |g1| && |all| == |g2| && (all == [] || start <= stamp2)
    requires mid == Upsert(before, re, g1, stamp1, |re|)
    requires KeySet(re) <= before.Keys && KeySet(re) <= KeySet(all)
    requires after == Upsert(mid, all, g2, stamp2, |all|)
    ensures RecordsEffect(before, after, start, KeySet(all), {})
    ensures forall k | k in before :: k in after && after[k].group == before[k].group
  {
    UpsertEffect(before, re, g1, stamp1, |re|);
    UpsertEffect(mid, all, g2, stamp2, |all|);
    assert re[..|re|] == re && all[..|all|] == all;
    assert Removed(before, start, KeySet(all), {}) == {};
  }

  lemma AddEffect(before: Stores, hs: seq<Hashed>, known: set<Uid>, force: bool)
    ensures var idx := ToIndex(hs, known, force);
            var after := PutAll(before, Contents(idx), UidList(idx), |idx|);
            && after.Keys == before.Keys + (if force then Uids(hs) else Uids(hs) - known)
            && DocsEffect(before, after, hs, force)
  {
    var idx := ToIndex(hs, known, force);
    ToIndexEffect(hs, known, force);
    ToIndexWithin(hs, known, force);
    PutEffect(before, hs, idx, force);
  }

  lemma PutEffect(before: Stores, hs: seq<Hashed>, idx: seq<Hashed>, force: bool)
    requires forall h | h in idx :: h in hs
    requires force ==> Uids(idx) == Uids(hs)
    ensures var after := PutAll(before, Contents(idx), UidList(idx), |idx|);
            after.Keys == before.Keys + Uids(idx) && DocsEffect(before, after, hs, force)
  {
    var ids, cs := UidList(idx), Contents(idx);
    var after := PutAll(before, cs, ids, |idx|);
    PutAllEffect(before, cs, ids, |idx|);
    assert ids[..|idx|] == ids;
    assert AsSet(ids) == Uids(idx) by {
      forall h | h in idx ensures h.uid in ids {
        var i :| 0 <= i < |idx| && idx[i] == h;
        assert ids[i] == h.uid;
      }
    }
    forall k | k in after
      ensures || (k in before && after[k] == before[k] && (force ==> k !in Uids(hs)))
              || exists h | h in hs :: h.uid == k && after[k] == ToDocument(h)
    {
      if k in ids {
        var i :| 0 <= i < |idx| && ids[i] == k && after[k] == cs[i];
        assert idx[i] in hs && idx[i].uid == k;
      }
    }
  }

  /** What each error says of the input; the clock is not part of it. */
  ghost predicate Blamed(error: IndexError, docs: seq<Document>, opts: Options) {
    match error
    case MissingSourceKey => opts.cleanup == Incremental && !KeyGiven(opts.sourceIdKey)
    case ReservedMetadataKey => exists d | d in docs :: !Hashable(d)
    case NullSource => opts.cleanup == Incremental && exists d | d in docs :: SourceOf(opts.sourceIdKey, d) == Null
    case FalsySource => opts.cleanup == Incremental && exists d | d in docs :: !Truthy(SourceOf(opts.sourceIdKey, d))
    case TimeSync => true
  }

  /** A batch that stops the run, and the error it stops with. */
  ghost predicate Stops(h: Hasher, batch: seq<Document>, opts: Options, error: IndexError) {
    !BatchAccepted(h, batch, opts) && Blamed(error, batch, opts)
  }

  lemma ReservedStops(h: Hasher, batch: seq<Document>, opts: Options)
    requires HashAll(h, batch).Err?
    ensures Stops(h, batch, opts, HashAll(h, batch).error)
  {
    var d :| d in batch && !Hashable(d);
  }

  /** A source that is not truthy stops the run before the batch is stored if it is null, and behind that otherwise. */
  lemma SourceStops(h: Hasher, batch: seq<Document>, opts: Options, s: Source)
    requires opts.cleanup == Incremental && s in SourceIds(opts.sourceIdKey, Dedup(HashList(h, batch))) && !Truthy(s)
    ensures Stops(h, batch, opts, if s == Null then NullSource else FalsySource)
  {
    var hs := HashList(h, batch);
    DedupKeepsEachHashOnce(hs);
    var i :| 0 <= i < |Dedup(hs)| && SourceOf(opts.sourceIdKey, Dedup(hs)[i].doc) == s;
    assert Dedup(hs)[i] in hs;
  }

  predicate Sourced(sources: seq<Source>, opts: Options) {
    opts.cleanup == Incremental ==> forall s | s in sources :: Truthy(s)
  }

  /** The keys that the cleanup behind a batch removes. */
  function CleanedKeys(rs: Records, sources: seq<Source>, opts: Options, start: Time): set<Uid> {
    if opts.cleanup == Incremental then Matching(rs, Some(start), Some(GroupIds(sources))) else {}
  }

  lemma FalsyStops(h: Hasher, batch: seq<Document>, opts: Options)
    requires var sources := SourceIds(opts.sourceIdKey, Dedup(HashList(h, batch)));
             !Sourced(sources, opts) && Null !in sources
    ensures Stops(h, batch, opts, FalsySource)
  {
    var s :| s in SourceIds(opts.sourceIdKey, Dedup(HashList(h, batch))) && !Truthy(s);
    SourceStops(h, batch, opts, s);
  }

  ghost predicate StopsAll(h: Hasher, batches: seq<seq<Document>>, opts: Options, error: IndexError) {
    !AcceptedUpTo(h, batches, opts, |batches|) && Blamed(error, Flatten(batches), opts)
  }

  /** What stops a batch stops the list of batches. */
  lemma BatchStops(h: Hasher, batches: seq<seq<Document>>, opts: Options, b: nat, error: IndexError)
    requires b < |batches| && Stops(h, batches[b], opts, error)
    ensures StopsAll(h, batches, opts, error)
  {
    OneRejected(h, batches, opts, b, |batches|);
    BatchWithin(batches, b);
  }

  class Indexer {
    const rm: RecordManager
    const vs: VectorStore
    const hasher: Hasher
    /** The stores when the run began, and every call since that changed one of them. */
    ghost var origin: Snapshot
    ghost var trace: seq<Call>

    constructor (rm: RecordManager, vs: VectorStore, hasher: Hasher)
      ensures this.rm == rm && this.vs == vs && this.hasher == hasher && trace == [] && Traced()
    {
      this.rm, this.vs, this.hasher := rm, vs, hasher;
      origin, trace := Snapshot(rm.records, vs.docs), [];
    }

    /** The trace leads, call by call, from the origin to the stores as they are. */
    ghost predicate Traced()
      reads this, rm, vs
    {
      Replay(origin, trace) == Snapshot(rm.records, vs.docs)
    }

    ghost predicate Safe(start: Time)
      reads this
    {
      SafeRun(origin, trace, start)
    }

    ghost method Log(call: Call, start: Time)
      requires Snapshot(rm.records, vs.docs) == Effect(call, Replay(origin, trace))
      modifies this`trace
      ensures trace == old(trace) + [call] && Traced()
      ensures old(Safe(start)) && SafeAfter(Snapshot(rm.records, vs.docs), call, start) ==> Safe(start)
    {
      OneMoreCall(origin, trace, call, start);
      trace := trace + [call];
    }

    /** `recordManager.update`; without keys, or with the clock behind, nothing is called or changed. */
    method UpdateRecords(keys: seq<KeyArg>, groupIds: Option<seq<Source>>, start: Time)
      returns (ok: bool, ghost stamp: Time, ghost groups: seq<Option<string>>)
      requires groupIds.Some? ==> |groupIds.value| == |keys|
      requires Traced()
      modifies this`trace, rm
      ensures groups == (if groupIds.None? then NoGroups(|keys|) else GroupArgs(groupIds.value)) && |groups| == |keys|
      ensures ok ==> rm.records == Upsert(old(rm.records), keys, groups, stamp, |keys|) && (keys == [] || start <= stamp)
      ensures !ok ==> rm.records == old(rm.records)
      ensures old(rm.readings) <= rm.readings && (Steady(rm.clock, old(rm.readings), start) ==> ok)
      ensures Traced() && trace == old(trace) + if ok && keys != [] then [Updated(keys, groups, stamp)] else []
      ensures old(Safe(start)) && (ok ==> InStep(rm.records, vs.docs)) ==> Safe(start)
    {
      stamp := rm.clock(rm.readings);
      groups := if groupIds.None? then NoGroups(|keys|) else GroupArgs(groupIds.value);
      ok := true;
      if |keys| > 0 {
        ok := rm.Update(keys, start, groupIds);
        if ok { Log(Updated(keys, groups, stamp), start); }
      }
      assert trace == trace + [];
    }

    /** `vectorStore.addDocuments`; without documents there is no call. */
    method AddToStore(docs: seq<Stored>, uids: seq<Uid>, start: Time)
      requires |docs| == |uids|
      requires Traced()
      modifies this`trace, vs
      ensures vs.docs == PutAll(old(vs.docs), docs, uids, |uids|)
      ensures Traced() && trace == old(trace) + if docs != [] then [Added(docs, uids)] else []
      ensures old(Safe(start)) && FreshBacked(rm.records, vs.docs, start) ==> Safe(start)
    {
      if |docs| > 0 {
        vs.AddDocuments(docs, uids);
        Log(Added(docs, uids), start);
      }
      assert trace == trace + [];
    }

    /** The additions of a batch, and the update of all its records behind them. */
    method AddAndStamp(docs: seq<Stored>, uids: seq<Uid>, keys: seq<KeyArg>, sources: seq<Source>, start: Time)
      returns (ok: bool, ghost stamp: Time, ghost groups: seq<Option<string>>)
      requires |docs| == |uids| && |sources| == |keys| && (docs != [] ==> keys != [])
      requires Traced() && Settled(trace)
      modifies this`trace, rm, vs
      ensures vs.docs == PutAll(old(vs.docs), docs, uids, |uids|)
      ensures groups == GroupArgs(sources) && |groups| == |keys|
      ensures ok ==> rm.records == Upsert(old(rm.records), keys, groups, stamp, |keys|) && (keys == [] || start <= stamp)
      ensures !ok ==> rm.records == old(rm.records)
      ensures old(rm.readings) <= rm.readings && (Steady(rm.clock, old(rm.readings), start) ==> ok)
      ensures Traced() && Open(trace) && (ok ==> Settled(trace))
      ensures old(Safe(start)) && FreshBacked(old(rm.records), vs.docs, start) && (!ok || InStep(rm.records, vs.docs)) ==> Safe(start)
    {
      ghost var trace0 := trace;
      AddToStore(docs, uids, start);
      ghost var trace1 := trace;
      ok, stamp, groups := UpdateRecords(keys, Some(sources), start);
      BatchSettles(trace0, docs, uids, trace1, keys, groups, stamp, trace, ok);
    }

    /** Restamp what is known. */
    method Restamp(hashed: seq<Hashed>, docsToUpdate: seq<KeyArg>, force: bool, start: Time)
      returns (ok: bool, ghost stamp: Time, ghost groups: seq<Option<string>>)
      requires docsToUpdate == KeyArgs(ToRestamp(hashed, rm.records.Keys, force))
      requires Traced() && Settled(trace)
      modifies this`trace, rm
      ensures |groups| == |docsToUpdate|
      ensures ok ==> rm.records == Upsert(old(rm.records), docsToUpdate, groups, stamp, |docsToUpdate|)
      ensures !ok ==> rm.records == old(rm.records)
      ensures rm.records.Keys == old(rm.records.Keys)
      ensures old(rm.readings) <= rm.readings && (Steady(rm.clock, old(rm.readings), start) ==> ok)
      ensures Traced() && Settled(trace)
      ensures old(Safe(start)) && InStep(old(rm.records), vs.docs) ==> Safe(start) && InStep(rm.records, vs.docs)
    {
      ghost var trace0 := trace;
      ghost var before := rm.records;
      ok, stamp, groups := UpdateRecords(docsToUpdate, None, start);
      assert trace0 + [] == trace0;
      Settling(trace0, Updated(docsToUpdate, groups, stamp));
      KnownKeysStay(before, hashed, force, groups, stamp);
    }

    /** Add what is new, then stamp the whole batch. */
    method AddAndStampAll(hashed: seq<Hashed>, sources: seq<Source>, docs: seq<Stored>, uids: seq<Uid>, force: bool, start: Time)
      returns (ok: bool, ghost stamp: Time, ghost groups: seq<Option<string>>)
      requires |sources| == |hashed|
      requires docs == Contents(ToIndex(hashed, rm.records.Keys, force)) && uids == UidList(ToIndex(hashed, rm.records.Keys, force))
      requires Traced() && Settled(trace)
      modifies this`trace, rm, vs
      ensures vs.docs == PutAll(old(vs.docs), docs, uids, |uids|)
      ensures groups == GroupArgs(sources) && |groups| == |hashed|
      ensures ok ==> rm.records == Upsert(old(rm.records), KeyArgs(hashed), groups, stamp, |hashed|) && (hashed == [] || start <= stamp)
      ensures old(rm.readings) <= rm.readings && (Steady(rm.clock, old(rm.readings), start) ==> ok)
      ensures Traced() && Open(trace) && (ok ==> Settled(trace))
      ensures old(Safe(start)) && InStep(old(rm.records), old(vs.docs)) ==> Safe(start)
    {
      ghost var mid, docs0 := rm.records, vs.docs;
      ToRestampEffect(hashed, mid.Keys, force);
      ok, stamp, groups := AddAndStamp(docs, uids, KeyArgs(hashed), sources, start);
      if InStep(mid, docs0) { AdditionsInStep(mid, docs0, hashed, groups, stamp, force, start); }
    }

    /** Restamp what is known, add what is new, then stamp the whole batch. */
    method StoreBatch(hashed: seq<Hashed>, sources: seq<Source>, force: bool, start: Time)
      returns (ok: bool, counts: Counts, added: seq<Stored>, ghost w: Writes)
      requires |sources| == |hashed|
      requires Traced() && Settled(trace)
      modifies this`trace, rm, vs
      ensures Traced() && Open(trace) && (ok ==> Settled(trace))
      ensures old(Safe(start)) && InStep(old(rm.records), old(vs.docs)) ==> Safe(start)
      ensures old(rm.readings) <= rm.readings && (Steady(rm.clock, old(rm.readings), start) ==> ok)
      ensures ok ==> WritesOf(w, old(rm.records), rm.records, old(vs.docs), vs.docs, hashed, sources, force, start)
      ensures ok ==> counts == CountsOf(hashed, old(rm.records.Keys), force)
      ensures added == Contents(ToIndex(hashed, old(rm.records.Keys), force))
    {
      ghost var known := rm.records.Keys;
      var found := rm.Exists(UidList(hashed));
      var uids, docsToIndex, docsToUpdate, seenDocs := Classify(hashed, found, force, known);
      counts := Counts(|docsToIndex| - |seenDocs|, |seenDocs|, |docsToUpdate|, 0);
      added := docsToIndex;
      w := Writes(start, [], rm.records, start, []);
      ghost var stamp1, groups1, stamp2, groups2;
      ok, stamp1, groups1 := Restamp(hashed, docsToUpdate, force, start);
      if !ok { return; }
      ghost var mid := rm.records;
      ok, stamp2, groups2 := AddAndStampAll(hashed, sources, docsToIndex, uids, force, start);
      w := Writes(stamp1, groups1, mid, stamp2, groups2);
    }

    /** `vectorStore.delete`. */
    method DeleteDocs(keys: seq<Uid>, start: Time)
      requires Traced()
      modifies this`trace, vs
      ensures vs.docs == old(vs.docs) - AsSet(keys)
      ensures Traced() && trace == old(trace) + [DocsDeleted(keys)]
      ensures old(Safe(start)) && FreshBacked(rm.records, vs.docs, start) ==> Safe(start)
    {
      vs.Delete(keys);
      Log(DocsDeleted(keys), start);
    }

    /** `recordManager.deleteKeys`. */
    method DeleteRecords(keys: seq<Uid>, start: Time)
      requires Traced()
      modifies this`trace, rm`records
      ensures rm.records == old(rm.records) - AsSet(keys)
      ensures Traced() && trace == old(trace) + [KeysDeleted(keys)]
      ensures old(Safe(start)) && InStep(rm.records, vs.docs) ==> Safe(start)
    {
      rm.DeleteKeys(keys);
      Log(KeysDeleted(keys), start);
    }

    /** One round of deletions: first from the vector store, then from the record manager. */
    method DeleteKeys(keys: seq<Uid>, start: Time)
      requires forall k | k in keys :: k in rm.records && Stale(rm.records[k], start)
      requires Traced() && Settled(trace)
      modifies this`trace, rm`records, vs
      ensures rm.records == old(rm.records) - AsSet(keys) && vs.docs == old(vs.docs) - AsSet(keys)
      ensures Traced() && Settled(trace)
      ensures trace == old(trace) + [DocsDeleted(keys)] + [KeysDeleted(keys)]
      ensures old(Safe(start)) && old(InStep(rm.records, vs.docs)) ==> Safe(start)
    {
      Settling(trace, DocsDeleted(keys));
      StaleKeysGo(rm.records, vs.docs, keys, start);
      DeleteDocs(keys, start);
      DeleteRecords(keys, start);
    }

    /** The incremental cleanup after a batch. */
    method CleanSources(sources: seq<Source>, start: Time) returns (ok: bool, deleted: nat)
      requires Traced() && Settled(trace)
      modifies this`trace, rm`records, vs
      ensures Traced() && Settled(trace)
      ensures ok == forall s | s in sources :: Truthy(s)
      ensures ok ==> var gone := Matching(old(rm.records), Some(start), Some(GroupIds(sources)));
                     rm.records == old(rm.records) - gone && vs.docs == old(vs.docs) - gone && deleted == |gone|
      ensures !ok ==> rm.records == old(rm.records) && vs.docs == old(vs.docs)
      ensures old(Safe(start)) && old(InStep(rm.records, vs.docs)) ==> Safe(start)
    {
      ok, deleted := forall s | s in sources :: Truthy(s), 0;
      if ok {
        var uidsToDelete := rm.ListKeys(Some(start), Some(GroupIds(sources)), None);
        assert forall k | k in uidsToDelete :: k in AsSet(uidsToDelete);
        DeleteKeys(uidsToDelete, start);
        deleted := |uidsToDelete|;
      }
    }

    /** ... which only the cleanup by source makes. */
    method CleanBehind(sources: seq<Source>, opts: Options, start: Time) returns (ok: bool, deleted: nat)
      requires Traced() && Settled(trace)
      modifies this`trace, rm`records, vs
      ensures Traced() && Settled(trace)
      ensures ok == Sourced(sources, opts)
      ensures ok ==> var gone := CleanedKeys(old(rm.records), sources, opts, start);
                     rm.records == old(rm.records) - gone && vs.docs == old(vs.docs) - gone && deleted == |gone|
      ensures old(Safe(start)) && old(InStep(rm.records, vs.docs)) ==> Safe(start)
    {
      ok, deleted := true, 0;
      if opts.cleanup == Incremental {
        ok, deleted := CleanSources(sources, start);
      } else {
        assert rm.records - {} == rm.records && vs.docs - {} == vs.docs;
      }
    }

    /** The full cleanup after all batches, in rounds of at most `limit` keys (0: no limit). */
    method CleanAll(limit: nat, start: Time) returns (deleted: nat)
      requires Traced() && Settled(trace)
      modifies this`trace, rm`records, vs
      ensures Traced() && Settled(trace)
      ensures var gone := Matching(old(rm.records), Some(start), None);
              rm.records == old(rm.records) - gone && vs.docs == old(vs.docs) - gone && deleted == |gone|
      ensures old(Safe(start)) && old(InStep(rm.records, vs.docs)) ==> Safe(start)
    {
      ghost var before, docs0 := rm.records, vs.docs;
      ghost var gone: set<Uid> := {};
      deleted := 0;
      var uidsToDelete := rm.ListKeys(Some(start), None, Some(limit));
      while |uidsToDelete| > 0
        invariant gone <= Matching(before, Some(start), None)
        invariant rm.records == before - gone && vs.docs == docs0 - gone && deleted == |gone|
        invariant forall i, j | 0 <= i < j < |uidsToDelete| :: uidsToDelete[i] != uidsToDelete[j]
        invariant AsSet(uidsToDelete) <= Matching(rm.records, Some(start), None)
        invariant |uidsToDelete| == 0 ==> Matching(rm.records, Some(start), None) == {}
        invariant Traced() && Settled(trace)
        invariant old(Safe(start)) && InStep(before, docs0) ==> Safe(start)
        decreases |Matching(rm.records, Some(start), None)|
      {
        CleanRound(before, docs0, rm.records, vs.docs, start, gone, uidsToDelete);
        DeleteKeys(uidsToDelete, start);
        gone := gone + AsSet(uidsToDelete);
        deleted := deleted + |uidsToDelete|;
        uidsToDelete := rm.ListKeys(Some(start), None, Some(limit));
      }
      AllStaleGone(before, start, gone);
    }

    /** Hashing, deduplication and the first look at the sources. */
    method Prepare(batch: seq<Document>, opts: Options) returns (r: Result<(seq<Hashed>, seq<Source>)>)
      ensures r.Ok? ==> r.value.0 == Dedup(HashList(hasher, batch)) && r.value.1 == SourceIds(opts.sourceIdKey, r.value.0)
      ensures r.Ok? ==> forall d | d in batch :: Hashable(d)
      ensures r.Err? ==> r.error != TimeSync && Stops(hasher, batch, opts, r.error)
      ensures r.Ok? && opts.cleanup == Incremental ==> Null !in r.value.1
    {
      var hashes := HashAll(hasher, batch);
      if hashes.Err? {
        ReservedStops(hasher, batch, opts);
        return Err(hashes.error);
      }
      assert hashes.value == HashList(hasher, batch);
      var hashedDocs := DeduplicateInOrder(hashes.value);
      var sourceIds := SourceIds(opts.sourceIdKey, hashedDocs);
      if opts.cleanup == Incremental && Null in sourceIds {
        SourceStops(hasher, batch, opts, Null);
        return Err(NullSource);
      }
      r := Ok((hashedDocs, sourceIds));
    }

    /** The writes of a batch and, for the cleanup by source, what comes behind them. */
    method StoreAndClean(hashedDocs: seq<Hashed>, sourceIds: seq<Source>, opts: Options, start: Time)
      returns (r: Result<(Counts, seq<Stored>)>)
      requires sourceIds == SourceIds(opts.sourceIdKey, hashedDocs)
      requires Traced() && Settled(trace)
      modifies this`trace, rm, vs
      ensures Traced() && Open(trace) && (r.Ok? ==> Settled(trace))
      ensures old(Safe(start)) && InStep(old(rm.records), old(vs.docs)) ==> Safe(start)
      ensures r.Ok? ==> StoredAndCleaned(old(rm.records), rm.records, old(vs.docs), vs.docs, hashedDocs, opts, start, r.value.0, r.value.1)
      ensures old(rm.readings) <= rm.readings
      ensures r.Ok? ==> Sourced(sourceIds, opts)
      ensures r.Err? ==> (r.error == TimeSync && !Steady(rm.clock, old(rm.readings), start)) || (r.error == FalsySource && !Sourced(sourceIds, opts))
    {
      ghost var before, docs0 := rm.records, vs.docs;
      var ok, counts, newDocs, w := StoreBatch(hashedDocs, sourceIds, opts.forceUpdate, start);
      if !ok { return Err(TimeSync); }
      ghost var mid, docs1 := rm.records, vs.docs;
      WritesInStep(w, before, mid, docs0, docs1, hashedDocs, sourceIds, opts, start);
      var clean, deleted := CleanBehind(sourceIds, opts, start);
      if !clean { return Err(FalsySource); }
      counts := counts.Deleting(deleted);
      TurnStored(w, before, mid, docs0, docs1, hashedDocs, sourceIds, opts, start, newDocs);
      r := Ok((counts, newDocs));
    }

    /** The loop body of `index`. */
    method IndexBatch(batch: seq<Document>, opts: Options, start: Time)
      returns (r: Result<(Counts, seq<Stored>)>)
      requires Traced() && Settled(trace)
      modifies this`trace, rm, vs
      ensures Traced() && Open(trace) && (r.Ok? ==> Settled(trace))
      ensures old(Safe(start)) && InStep(old(rm.records), old(vs.docs)) ==> Safe(start)
      ensures r.Ok? ==>
                TurnDone(hasher, old(rm.records), rm.records, old(vs.docs), vs.docs, batch, opts, start, r.value.0, r.value.1)
      ensures old(rm.readings) <= rm.readings && (Steady(rm.clock, old(rm.readings), start) ==> r.Ok? || r.error != TimeSync)
      ensures r.Err? && r.error != TimeSync ==> Stops(hasher, batch, opts, r.error)
    {
      var prepared := Prepare(batch, opts);
      if prepared.Err? { return Err(prepared.error); }
      r := StoreAndClean(prepared.value.0, prepared.value.1, opts, start);
      if r.Err? && r.error == FalsySource { FalsyStops(hasher, batch, opts); }
    }

    /** The batch loop of `index`. */
    method IndexBatches(batches: seq<seq<Document>>, opts: Options, start: Time)
      returns (r: Result<(Counts, seq<Stored>)>)
      requires Traced() && Settled(trace)
      modifies this`trace, rm, vs
      ensures Traced() && Open(trace) && (r.Ok? ==> Settled(trace))
      ensures old(Safe(start)) && InStep(old(rm.records), old(vs.docs)) ==> Safe(start)
      ensures r.Ok? ==> LoopState(hasher, old(rm.records), rm.records, old(vs.docs), vs.docs, batches, |batches|, opts, start,
                                  r.value.0, r.value.1)
      ensures old(rm.readings) <= rm.readings && (Steady(rm.clock, old(rm.readings), start) ==> r.Ok? || r.error != TimeSync)
      ensures r.Err? && r.error != TimeSync ==> StopsAll(hasher, batches, opts, r.error)
    {
      ghost var before, docs0 := rm.records, vs.docs;
      var counts, addedDocs := Counts(0, 0, 0, 0), [];
      EmptyRun(hasher, before, docs0, batches, opts, start);
      for b := 0 to |batches|
        invariant LoopState(hasher, before, rm.records, docs0, vs.docs, batches, b, opts, start, counts, addedDocs)
        invariant Traced() && Settled(trace)
        invariant old(rm.readings) <= rm.readings
        invariant old(Safe(start)) && InStep(before, docs0) ==> Safe(start) && InStep(rm.records, vs.docs)
      {
        ghost var mid, docs1 := rm.records, vs.docs;
        var step := IndexBatch(batches[b], opts, start);
        if step.Err? {
          if step.error != TimeSync { BatchStops(hasher, batches, opts, b, step.error); }
          return Err(step.error);
        }
        NextBatch(hasher, before, mid, rm.records, docs0, docs1, vs.docs, batches, b, opts, start, counts, addedDocs,
                  step.value.0, step.value.1);
        counts := counts.Plus(step.value.0);
        addedDocs := addedDocs + step.value.1;
      }
      r := Ok((counts, addedDocs));
    }

    /**
      `index`. Whatever the batch size and the clock, a run that returns leaves the keys
      `FinalKeys` in both stores. The trace leads call by call from the old stores to the new
      ones; after every call, also of a run that fails, each record stamped since `start` has
      its document, and after every call on the record manager the key sets are equal. In a run
      that returns, each call on the vector store is followed by its call on the record manager.
     */
    method Index(docs: seq<Document>, opts: Options) returns (r: Result<IndexingResult>, ghost start: Time)
      modifies this`trace, this`origin, rm, vs
      ensures start == rm.clock(old(rm.readings))
      ensures origin == Snapshot(old(rm.records), old(vs.docs)) && Traced() && Open(trace) && (r.Ok? ==> Settled(trace))
      ensures InStep(old(rm.records), old(vs.docs)) ==> Safe(start)
      ensures r.Ok? ==>
                && Indexed(hasher, old(rm.records), rm.records, old(vs.docs), vs.docs, docs, opts, start,
                           r.value.counts, r.value.addedDocs)
                && r.value.totalKeys == |rm.records|
      ensures r.Ok? ==> Accepted(hasher, docs, opts)
      ensures r.Err? && r.error != TimeSync ==> !Accepted(hasher, docs, opts) && Blamed(r.error, docs, opts)
      ensures Steady(rm.clock, old(rm.readings), start) ==> (r.Ok? <==> Accepted(hasher, docs, opts))
      ensures opts.cleanup == Incremental && !KeyGiven(opts.sourceIdKey) ==> r.Err? && r.error == MissingSourceKey && trace == []
    {
      start := rm.clock(rm.readings);
      origin, trace := Snapshot(rm.records, vs.docs), [];
      if opts.cleanup == Incremental && !KeyGiven(opts.sourceIdKey) {
        return Err(MissingSourceKey), start;
      }
      ghost var before, docs0 := rm.records, vs.docs;
      var indexStartDt := rm.GetTime();
      var batches := Batch(opts.batchSize, docs);
      BatchesPartition(opts.batchSize, docs);
      var loop := IndexBatches(batches, opts, indexStartDt);
      if loop.Err? {
        return Err(loop.error), start;
      }
      var counts := loop.value.0;
      RunFinished(hasher, before, rm.records, docs0, vs.docs, docs, batches, opts, start, counts, loop.value.1);
      if opts.cleanup == Full {
        var deleted := CleanAll(opts.cleanupBatchSize, indexStartDt);
        counts := counts.Deleting(deleted);
      }
      var all := rm.ListKeys(None, None, None);
      MatchingAll(rm.records);
      r := Ok(IndexingResult(counts, |all|, loop.value.1));
    }
  }

  lemma RemoveMore<T>(m: map<Uid, T>, a: set<Uid>, b: set<Uid>)
    ensures (m - a) - b == m - (a + b)
  {
  }

  /** Between the two deletions of stale keys every fresh record still has its document; behind them the key sets are equal again. */
  lemma StaleKeysGo(rs: Records, docs: Stores, keys: seq<Uid>, start: Time)
    requires forall k | k in keys :: k in rs && Stale(rs[k], start)
    ensures InStep(rs, docs) ==> FreshBacked(rs, docs - AsSet(keys), start) && InStep(rs - AsSet(keys), docs - AsSet(keys))
  {
  }

  lemma AllStaleGone(before: Records, start: Time, gone: set<Uid>)
    requires gone <= Matching(before, Some(start), None) && Matching(before - gone, Some(start), None) == {}
    ensures gone == Matching(before, Some(start), None)
  {
    var stale := Matching(before, Some(start), None);
    assert Matching(before - gone, Some(start), None) == stale - gone;
    assert stale == (stale - gone) + gone;
  }

  /** A round of the full cleanup removes stale keys only and at least one of them. */
  lemma CleanRound(before: Records, docs0: Stores, rs: Records, docs: Stores, start: Time, gone: set<Uid>, keys: seq<Uid>)
    requires gone <= Matching(before, Some(start), None)
    requires rs == before - gone && docs == docs0 - gone
    requires forall i, j | 0 <= i < j < |keys| :: keys[i] != keys[j]
    requires AsSet(keys) <= Matching(rs, Some(start), None)
    ensures forall k | k in keys :: k in rs && Stale(rs[k], start)
    ensures gone + AsSet(keys) <= Matching(before, Some(start), None)
    ensures |gone + AsSet(keys)| == |gone| + |keys|
    ensures rs - AsSet(keys) == before - (gone + AsSet(keys)) && docs - AsSet(keys) == docs0 - (gone + AsSet(keys))
    ensures Matching(rs - AsSet(keys), Some(start), None) == Matching(rs, Some(start), None) - AsSet(keys)
    ensures |keys| > 0 ==> |Matching(rs - AsSet(keys), Some(start), None)| < |Matching(rs, Some(start), None)|
    ensures InStep(before, docs0) ==> InStep(rs, docs)
  {
    assert forall k | k in keys :: k in AsSet(keys);
    SizeOfDistinct(keys);
    assert gone !! AsSet(keys);
    RemoveMore(before, gone, AsSet(keys));
    RemoveMore(docs0, gone, AsSet(keys));
    var m, m' := Matching(rs, Some(start), None), Matching(rs - AsSet(keys), Some(start), None);
    assert m' == m - AsSet(keys);
    if |keys| > 0 {
      assert keys[0] in m && keys[0] !in m';
    }
  }

  lemma {:induction false} SizeOfDistinct<T>(s: seq<T>)
    requires forall i, j | 0 <= i < j < |s| :: s[i] != s[j]
    ensures |AsSet(s)| == |s|
  {
    if s != [] {
      var front, last := s[..|s| - 1], s[|s| - 1];
      SizeOfDistinct(front);
      assert s == front + [last];
      assert AsSet(s) == AsSet(front) + {last};
    }
  }

  /** The two record updates of a batch. */
  datatype Writes = Writes(stamp1: Time, groups1: seq<Option<string>>, mid: Records, stamp2: Time, groups2: seq<Option<string>>)

  ghost predicate WritesOf(w: Writes, before: Records, after: Records, docs0: Stores, docs1: Stores,
                           hashed: seq<Hashed>, sources: seq<Source>, force: bool, start: Time) {
    var re := KeyArgs(ToRestamp(hashed, before.Keys, force));
    var idx := ToIndex(hashed, before.Keys, force);
    && |w.groups1| == |re|
    && w.mid == Upsert(before, re, w.groups1, w.stamp1, |re|)
    && docs1 == PutAll(docs0, Contents(idx), UidList(idx), |idx|)
    && w.groups2 == GroupArgs(sources) && |w.groups2| == |hashed|
    && after == Upsert(w.mid, KeyArgs(hashed), w.groups2, w.stamp2, |hashed|)
    && (hashed == [] || start <= w.stamp2)
  }

  lemma UpsertKeys(rs: Records, keys: seq<KeyArg>, groups: seq<Option<string>>, stamp: Time)
    requires |keys| == |groups|
    ensures Upsert(rs, keys, groups, stamp, |keys|).Keys == rs.Keys + KeySet(keys)
  {
    UpsertEffect(rs, keys, groups, stamp, |keys|);
    assert keys[..|keys|] == keys;
  }

  lemma KnownKeysStay(before: Records, hs: seq<Hashed>, force: bool, groups: seq<Option<string>>, stamp: Time)
    requires |groups| == |ToRestamp(hs, before.Keys, force)|
    ensures var re := KeyArgs(ToRestamp(hs, before.Keys, force));
            Upsert(before, re, groups, stamp, |re|).Keys == before.Keys
  {
    ToRestampEffect(hs, before.Keys, force);
    UpsertKeys(before, KeyArgs(ToRestamp(hs, before.Keys, force)), groups, stamp);
  }

  /** Fresh records stay backed when a batch is added, and its update brings the stores in step again. */
  lemma AdditionsInStep(mid: Records, docs0: Stores, hs: seq<Hashed>, groups: seq<Option<string>>, stamp: Time, force: bool, start: Time)
    requires |groups| == |hs| && InStep(mid, docs0)
    ensures var idx := ToIndex(hs, mid.Keys, force);
            var docs1 := PutAll(docs0, Contents(idx), UidList(idx), |idx|);
            FreshBacked(mid, docs1, start) && InStep(Upsert(mid, KeyArgs(hs), groups, stamp, |hs|), docs1)
  {
    AddKeys(docs0, hs, mid.Keys, force);
    UpsertKeys(mid, KeyArgs(hs), groups, stamp);
  }

  lemma AddKeys(before: Stores, hs: seq<Hashed>, known: set<Uid>, force: bool)
    ensures var idx := ToIndex(hs, known, force);
            PutAll(before, Contents(idx), UidList(idx), |idx|).Keys
            == before.Keys + (if force then Uids(hs) else Uids(hs) - known)
  {
    AddEffect(before, hs, known, force);
  }

  /** No batch of an accepted run trips one of the checks on its documents. */
  predicate BatchAccepted(h: Hasher, batch: seq<Document>, opts: Options) {
    && (forall d | d in batch :: Hashable(d))
    && (opts.cleanup == Incremental ==>
          forall s | s in SourceIds(opts.sourceIdKey, Dedup(HashList(h, batch))) :: Truthy(s))
  }

  function SeenGroups(opts: Options, kept: seq<Hashed>): set<string> {
    if opts.cleanup == Incremental then Groups(opts.sourceIdKey, kept) else {}
  }

  /** What one batch, or several in a row, did to the stores ... */
  ghost predicate StoresDone(before: Records, after: Records, docs0: Stores, docs1: Stores,
                             kept: seq<Hashed>, opts: Options, start: Time) {
    && RecordsEffect(before, after, start, Uids(kept), SeenGroups(opts, kept))
    && OriginsEffect(before, after, opts.sourceIdKey, kept)
    && DocsEffect(docs0, docs1, kept, opts.forceUpdate)
    && (InStep(before, docs0) ==> InStep(after, docs1))
  }

  /** ... and to the counters. */
  ghost predicate CountsDone(before: Records, after: Records, kept: seq<Hashed>, opts: Options, counts: Counts) {
    && counts.added + counts.updated + counts.skipped == |kept|
    && |after| == |before| + counts.added - Surplus(ToIndex(kept, before.Keys, opts.forceUpdate)) - counts.deleted
    && (Uids(kept) <= before.Keys && !opts.forceUpdate ==> counts.added == counts.updated == 0)
    && (opts.cleanup != Incremental ==> counts.deleted == 0)
  }

  /** What one turn of the batch loop does and reports. */
  ghost predicate TurnDone(h: Hasher, before: Records, after: Records, docs0: Stores, docs1: Stores,
                           batch: seq<Document>, opts: Options, start: Time, counts: Counts, added: seq<Stored>) {
    var kept := Dedup(HashList(h, batch));
    && StoredAndCleaned(before, after, docs0, docs1, kept, opts, start, counts, added)
    && BatchAccepted(h, batch, opts)
  }

  ghost predicate StoredAndCleaned(before: Records, after: Records, docs0: Stores, docs1: Stores,
                                   kept: seq<Hashed>, opts: Options, start: Time, counts: Counts, added: seq<Stored>) {
    && BatchDone(before, after, docs0, docs1, kept, opts, start, counts)
    && Tallied(counts.ButDeleted(), added) == BatchTally(kept, before.Keys, opts.forceUpdate)
  }

  ghost predicate BatchDone(before: Records, after: Records, docs0: Stores, docs1: Stores,
                            kept: seq<Hashed>, opts: Options, start: Time, counts: Counts) {
    StoresDone(before, after, docs0, docs1, kept, opts, start) && CountsDone(before, after, kept, opts, counts)
  }

  lemma BatchStored(w: Writes, before: Records, after: Records, docs0: Stores, docs1: Stores,
                    hashed: seq<Hashed>, sources: seq<Source>, opts: Options, start: Time)
    requires WritesOf(w, before, after, docs0, docs1, hashed, sources, opts.forceUpdate, start)
    requires sources == SourceIds(opts.sourceIdKey, hashed)
    ensures BatchDone(before, after, docs0, docs1, hashed, opts.(cleanup := NoCleanup), start, CountsOf(hashed, before.Keys, opts.forceUpdate))
  {
    var opts' := opts.(cleanup := NoCleanup);
    RecordsStored(w, before, after, docs0, docs1, hashed, sources, opts.forceUpdate, start);
    DocsStored(w, before, after, docs0, docs1, hashed, sources, opts.forceUpdate, start);
    InStepStored(before, after, docs0, docs1, Uids(hashed), opts.forceUpdate);
    OriginsStored(w, before, after, docs0, docs1, hashed, opts.sourceIdKey, opts.forceUpdate, start);
    CountsStored(before, after, hashed, opts');
    assert StoresDone(before, after, docs0, docs1, hashed, opts', start);
  }

  lemma InStepStored(before: Records, after: Records, docs0: Stores, docs1: Stores, uids: set<Uid>, force: bool)
    requires after.Keys == before.Keys + uids
    requires docs1.Keys == docs0.Keys + (if force then uids else uids - before.Keys)
    ensures InStep(before, docs0) ==> InStep(after, docs1)
  {
  }

  lemma KeyCount(before: Records, after: Records, uids: set<Uid>)
    requires after.Keys == before.Keys + uids
    ensures |after| == |before| + |uids - before.Keys|
  {
    assert after.Keys == before.Keys + (uids - before.Keys);
  }

  lemma RecordsStored(w: Writes, before: Records, after: Records, docs0: Stores, docs1: Stores,
                      hashed: seq<Hashed>, sources: seq<Source>, force: bool, start: Time)
    requires WritesOf(w, before, after, docs0, docs1, hashed, sources, force, start)
    ensures RecordsEffect(before, after, start, Uids(hashed), {})
    ensures after.Keys == before.Keys + Uids(hashed)
  {
    ToRestampEffect(hashed, before.Keys, force);
    StampEffect(before, w.mid, after, start, w.stamp1, w.stamp2, KeyArgs(ToRestamp(hashed, before.Keys, force)), w.groups1,
                KeyArgs(hashed), w.groups2);
    assert Removed(before, start, Uids(hashed), {}) == {};
  }

  /** The upsert of a whole batch gives its documents' ids and sources to the records. */
  lemma BatchOrigins(rs: Records, hs: seq<Hashed>, key: SourceKey, stamp: Time)
    ensures var after := Upsert(rs, KeyArgs(hs), GroupArgs(SourceIds(key, hs)), stamp, |hs|);
            && (forall k | k in Uids(hs) :: k in after && DocIdFrom(hs, k, after[k].docId))
            && (forall k | k in after && k !in rs :: GroupFrom(key, hs, k, after[k].group))
  {
    var all, groups := KeyArgs(hs), GroupArgs(SourceIds(key, hs));
    var after := Upsert(rs, all, groups, stamp, |hs|);
    UpsertOrigins(rs, all, groups, stamp, |hs|);
    assert all[..|hs|] == all;
    forall k | k in Uids(hs) ensures k in after && DocIdFrom(hs, k, after[k].docId) {
      assert k in KeySet(all);
      var i :| 0 <= i < |hs| && all[i].uid == k && after[k].docId == all[i].docId;
      KeyOf(hs, i);
    }
    forall k | k in after && k !in rs ensures GroupFrom(key, hs, k, after[k].group) {
      var i :| 0 <= i < |hs| && all[i].uid == k && after[k].group == groups[i];
      KeyOf(hs, i);
    }
  }

  lemma KeyOf(hs: seq<Hashed>, i: nat)
    requires i < |hs|
    ensures hs[i] in hs && KeyArgs(hs)[i] == KeyArg(hs[i].uid, DocIdOf(hs[i]))
  {
  }

  lemma OriginsStored(w: Writes, before: Records, after: Records, docs0: Stores, docs1: Stores,
                      hashed: seq<Hashed>, key: SourceKey, force: bool, start: Time)
    requires WritesOf(w, before, after, docs0, docs1, hashed, SourceIds(key, hashed), force, start)
    ensures OriginsEffect(before, after, key, hashed)
  {
    var re := KeyArgs(ToRestamp(hashed, before.Keys, force));
    ToRestampEffect(hashed, before.Keys, force);
    UpsertKeys(before, re, w.groups1, w.stamp1);
    GroupsStay(before, re, w.groups1, w.stamp1);
    GroupsStay(w.mid, KeyArgs(hashed), w.groups2, w.stamp2);
    BatchOrigins(w.mid, hashed, key, w.stamp2);
  }

  lemma GroupsStay(rs: Records, keys: seq<KeyArg>, groups: seq<Option<string>>, stamp: Time)
    requires |keys| == |groups|
    ensures var after := Upsert(rs, keys, groups, stamp, |keys|);
            forall k | k in rs :: k in after && after[k].group == rs[k].group
  {
    UpsertEffect(rs, keys, groups, stamp, |keys|);
    assert keys[..|keys|] == keys;
  }

  lemma DocsStored(w: Writes, before: Records, after: Records, docs0: Stores, docs1: Stores,
                   hashed: seq<Hashed>, sources: seq<Source>, force: bool, start: Time)
    requires WritesOf(w, before, after, docs0, docs1, hashed, sources, force, start)
    ensures docs1.Keys == docs0.Keys + (if force then Uids(hashed) else Uids(hashed) - before.Keys)
    ensures DocsEffect(docs0, docs1, hashed, force)
  {
    AddEffect(docs0, hashed, before.Keys, force);
  }

  lemma CountsStored(before: Records, after: Records, hashed: seq<Hashed>, opts: Options)
    requires after.Keys == before.Keys + Uids(hashed)
    ensures CountsDone(before, after, hashed, opts, CountsOf(hashed, before.Keys, opts.forceUpdate))
  {
    var known, force := before.Keys, opts.forceUpdate;
    ToRestampEffect(hashed, known, force);
    KeyCount(before, after, Uids(hashed));
    ToIndexCount(hashed, known, force);
    if Uids(hashed) <= known && !force {
      NothingNew(hashed, known);
    }
  }

  lemma {:induction false} NothingNew(hs: seq<Hashed>, known: set<Uid>)
    requires Uids(hs) <= known
    ensures ToIndex(hs, known, false) == []
  {
    if hs != [] {
      assert hs[|hs| - 1].uid in Uids(hs);
      assert hs == hs[..|hs| - 1] + [hs[|hs| - 1]];
      UidsAppend(hs[..|hs| - 1], hs[|hs| - 1]);
      NothingNew(hs[..|hs| - 1], known);
    }
  }

  lemma BatchCleaned(before: Records, mid: Records, docs0: Stores, docs1: Stores,
                     hashed: seq<Hashed>, opts: Options, start: Time, counts: Counts)
    requires opts.cleanup == Incremental && counts.deleted == 0
    requires BatchDone(before, mid, docs0, docs1, hashed, opts.(cleanup := NoCleanup), start, counts)
    ensures var gone := Matching(mid, Some(start), Some(GroupIds(SourceIds(opts.sourceIdKey, hashed))));
            BatchDone(before, mid - gone, docs0, docs1 - gone, hashed, opts, start, counts.Deleting(|gone|))
  {
    GroupIdsOfSources(opts.sourceIdKey, hashed);
    RecordsCleaned(before, mid, start, Uids(hashed), Groups(opts.sourceIdKey, hashed));
    OriginsOfRest(before, mid, Matching(mid, Some(start), Some(Groups(opts.sourceIdKey, hashed))), opts.sourceIdKey, hashed);
  }

  /** The writes of a batch, and the deletions behind them where there are any, make a turn of the loop. */
  lemma TurnStored(w: Writes, before: Records, mid: Records, docs0: Stores, docs1: Stores,
                   hashed: seq<Hashed>, sources: seq<Source>, opts: Options, start: Time, added: seq<Stored>)
    requires WritesOf(w, before, mid, docs0, docs1, hashed, sources, opts.forceUpdate, start)
    requires sources == SourceIds(opts.sourceIdKey, hashed)
    requires added == Contents(ToIndex(hashed, before.Keys, opts.forceUpdate))
    ensures var gone := CleanedKeys(mid, sources, opts, start);
            StoredAndCleaned(before, mid - gone, docs0, docs1 - gone, hashed, opts, start,
                             CountsOf(hashed, before.Keys, opts.forceUpdate).Deleting(|gone|), added)
  {
    var counts, gone := CountsOf(hashed, before.Keys, opts.forceUpdate), CleanedKeys(mid, sources, opts, start);
    BatchStored(w, before, mid, docs0, docs1, hashed, sources, opts, start);
    OnlyDeletions(counts, |gone|);
    if opts.cleanup == Incremental {
      BatchCleaned(before, mid, docs0, docs1, hashed, opts, start, counts);
    } else {
      NotCleaned(before, mid, docs0, docs1, hashed, opts, start, counts);
      NothingGone(mid, docs1, counts);
    }
    assert BatchDone(before, mid - gone, docs0, docs1 - gone, hashed, opts, start, counts.Deleting(|gone|));
  }

  lemma NothingGone(rs: Records, docs: Stores, counts: Counts)
    ensures rs - {} == rs && docs - {} == docs && counts.Deleting(0) == counts
  {
  }

  lemma NotCleaned(before: Records, after: Records, docs0: Stores, docs1: Stores,
                   hashed: seq<Hashed>, opts: Options, start: Time, counts: Counts)
    requires opts.cleanup != Incremental
    requires BatchDone(before, after, docs0, docs1, hashed, opts.(cleanup := NoCleanup), start, counts)
    ensures BatchDone(before, after, docs0, docs1, hashed, opts, start, counts)
  {
  }

  lemma WritesInStep(w: Writes, before: Records, mid: Records, docs0: Stores, docs1: Stores,
                     hashed: seq<Hashed>, sources: seq<Source>, opts: Options, start: Time)
    requires WritesOf(w, before, mid, docs0, docs1, hashed, sources, opts.forceUpdate, start)
    requires sources == SourceIds(opts.sourceIdKey, hashed)
    ensures InStep(before, docs0) ==> InStep(mid, docs1)
  {
    BatchStored(w, before, mid, docs0, docs1, hashed, sources, opts, start);
  }

  lemma RecordsCleaned(before: Records, mid: Records, start: Time, uids: set<Uid>, groups: set<string>)
    requires RecordsEffect(before, mid, start, uids, {})
    ensures var gone := Matching(mid, Some(start), Some(groups));
            RecordsEffect(before, mid - gone, start, uids, groups) && |mid - gone| == |mid| - |gone|
  {
    var gone := Matching(mid, Some(start), Some(groups));
    MatchingIsRemoved(mid, start, groups);
    StampThenClean(before, mid, mid - gone, start, uids, groups);
  }

  lemma StampThenClean(before: Records, mid: Records, after: Records, start: Time, uids: set<Uid>, groups: set<string>)
    requires RecordsEffect(before, mid, start, uids, {}) && RecordsEffect(mid, after, start, {}, groups)
    ensures RecordsEffect(before, after, start, uids, groups)
  {
    RecordsEffectCompose(before, mid, after, start, uids, {}, {}, groups);
    assert uids + {} == uids;
    assert {} + groups == groups;
  }

  lemma MatchingIsRemoved(rs: Records, start: Time, groups: set<string>)
    ensures var gone := Matching(rs, Some(start), Some(groups));
            RecordsEffect(rs, rs - gone, start, {}, groups) && |rs - gone| == |rs| - |gone|
  {
    var gone := Matching(rs, Some(start), Some(groups));
    assert gone == Removed(rs, start, {}, groups);
    assert (rs - gone).Keys == rs.Keys - gone;
  }

  predicate KeyGiven(key: SourceKey) {
    !key.NoKey? && key != Key("")
  }

  /** The inputs for which no check on the documents fails. */
  predicate Accepted(h: Hasher, docs: seq<Document>, opts: Options) {
    && (opts.cleanup == Incremental ==> KeyGiven(opts.sourceIdKey))
    && AcceptedUpTo(h, Batches(opts.batchSize, docs), opts, |Batches(opts.batchSize, docs)|)
  }

  predicate AcceptedUpTo(h: Hasher, batches: seq<seq<Document>>, opts: Options, n: nat)
    requires n <= |batches|
  {
    n == 0 || (AcceptedUpTo(h, batches, opts, n - 1) && BatchAccepted(h, batches[n - 1], opts))
  }

  lemma {:induction false} OneRejected(h: Hasher, batches: seq<seq<Document>>, opts: Options, b: nat, n: nat)
    requires b < n <= |batches| && !BatchAccepted(h, batches[b], opts)
    ensures !AcceptedUpTo(h, batches, opts, n)
  {
    if b < n - 1 {
      OneRejected(h, batches, opts, b, n - 1);
    }
  }

  lemma Untouched(before: Records, after: Records, start: Time, uids: set<Uid>, groups: set<string>)
    requires RecordsEffect(before, after, start, uids, groups)
    ensures forall k | k in after && k !in uids :: k in before && after[k] == before[k]
  {
  }

  lemma StoresDoneCompose(a: Records, b: Records, c: Records, d0: Stores, d1: Stores, d2: Stores,
                          k1: seq<Hashed>, k2: seq<Hashed>, opts: Options, start: Time)
    requires StoresDone(a, b, d0, d1, k1, opts, start) && StoresDone(b, c, d1, d2, k2, opts, start)
    ensures StoresDone(a, c, d0, d2, k1 + k2, opts, start)
  {
    assert RecordsEffect(a, c, start, Uids(k1 + k2), SeenGroups(opts, k1 + k2)) by {
      UnionOfLists(opts.sourceIdKey, k1, k2);
      RecordsEffectCompose(a, b, c, start, Uids(k1), SeenGroups(opts, k1), Uids(k2), SeenGroups(opts, k2));
    }
    assert OriginsEffect(a, c, opts.sourceIdKey, k1 + k2) by {
      Untouched(b, c, start, Uids(k2), SeenGroups(opts, k2));
      OriginsEffectCompose(a, b, c, opts.sourceIdKey, k1, k2);
    }
    DocsEffectCompose(d0, d1, d2, k1, k2, opts.forceUpdate);
  }

  /** The counters after some batches that added `surplus` documents under uids they had added already. */
  ghost predicate LoopCounts(before: Records, now: Records, surplus: nat, kept: seq<Hashed>, opts: Options, counts: Counts) {
    && counts.added + counts.updated + counts.skipped == |kept|
    && |now| == |before| + counts.added - surplus - counts.deleted
    && (opts.cleanup != Incremental && Uids(kept) <= before.Keys && !opts.forceUpdate ==> counts.added == counts.updated == 0)
    && (opts.cleanup != Incremental ==> counts.deleted == 0)
  }

  lemma KeptStep(h: Hasher, batches: seq<seq<Document>>, b: nat)
    requires b < |batches|
    ensures Kept(h, batches[..b + 1]) == Kept(h, batches[..b]) + Dedup(HashList(h, batches[b]))
  {
    assert batches[..b + 1][..b] == batches[..b];
  }

  lemma KeysStay(before: Records, mid: Records, d0: Stores, d1: Stores, kept: seq<Hashed>, opts: Options, start: Time)
    requires StoresDone(before, mid, d0, d1, kept, opts, start) && opts.cleanup != Incremental
    ensures before.Keys <= mid.Keys
  {
    assert Removed(before, start, Uids(kept), {}) == {};
  }

  lemma LoopCountsCompose(before: Records, mid: Records, after: Records, surplus: nat,
                          k1: seq<Hashed>, k2: seq<Hashed>, opts: Options, sofar: Counts, step: Counts)
    requires LoopCounts(before, mid, surplus, k1, opts, sofar)
    requires CountsDone(mid, after, k2, opts, step) && (opts.cleanup != Incremental ==> before.Keys <= mid.Keys)
    ensures LoopCounts(before, after, surplus + Surplus(ToIndex(k2, mid.Keys, opts.forceUpdate)), k1 + k2, opts, sofar.Plus(step))
  {
    UnionOfLists(opts.sourceIdKey, k1, k2);
  }

  lemma RunStep(h: Hasher, before: Records, mid: Records, after: Records, d0: Stores, d1: Stores, d2: Stores,
                batches: seq<seq<Document>>, b: nat, opts: Options, start: Time, surplus: nat, sofar: Counts, step: Counts)
    requires b < |batches|
    requires StoresDone(before, mid, d0, d1, Kept(h, batches[..b]), opts, start)
    requires LoopCounts(before, mid, surplus, Kept(h, batches[..b]), opts, sofar)
    requires BatchDone(mid, after, d1, d2, Dedup(HashList(h, batches[b])), opts, start, step)
    ensures StoresDone(before, after, d0, d2, Kept(h, batches[..b + 1]), opts, start)
    ensures var more := Surplus(ToIndex(Dedup(HashList(h, batches[b])), mid.Keys, opts.forceUpdate));
            LoopCounts(before, after, surplus + more, Kept(h, batches[..b + 1]), opts, sofar.Plus(step))
  {
    var k1, k2 := Kept(h, batches[..b]), Dedup(HashList(h, batches[b]));
    KeptStep(h, batches, b);
    StoresDoneCompose(before, mid, after, d0, d1, d2, k1, k2, opts, start);
    if opts.cleanup != Incremental { KeysStay(before, mid, d0, d1, k1, opts, start); }
    LoopCountsCompose(before, mid, after, surplus, k1, k2, opts, sofar, step);
  }

  /** The uids with a record when the documents `kept` have been processed. */
  function KnownAfter(before: Records, start: Time, opts: Options, kept: seq<Hashed>): set<Uid> {
    (before.Keys + Uids(kept)) - Removed(before, start, Uids(kept), SeenGroups(opts, kept))
  }

  /** What the batch loop reports, from its input alone. */
  function Tally(h: Hasher, before: Records, start: Time, opts: Options, batches: seq<seq<Document>>): Tallied {
    if batches == [] then Tallied(Counts(0, 0, 0, 0), [])
    else
      var front := batches[..|batches| - 1];
      Tally(h, before, start, opts, front).Then(
        BatchTally(Dedup(HashList(h, batches[|batches| - 1])), KnownAfter(before, start, opts, Kept(h, front)), opts.forceUpdate))
  }

  lemma TallyStep(h: Hasher, before: Records, start: Time, opts: Options, batches: seq<seq<Document>>, b: nat, known: set<Uid>)
    requires b < |batches| && known == KnownAfter(before, start, opts, Kept(h, batches[..b]))
    ensures Tally(h, before, start, opts, batches[..b + 1])
            == Tally(h, before, start, opts, batches[..b]).Then(BatchTally(Dedup(HashList(h, batches[b])), known, opts.forceUpdate))
  {
    LastOfFirst(batches, b);
  }

  lemma LastOfFirst<T>(batches: seq<T>, b: nat)
    requires b < |batches|
    ensures var more := batches[..b + 1]; more != [] && more[..|more| - 1] == batches[..b] && more[|more| - 1] == batches[b]
  {
  }

  /** The documents a batch adds, when `known` have a record. */
  function Additions(h: Hasher, batch: seq<Document>, known: set<Uid>, force: bool): seq<Hashed> {
    ToIndex(Dedup(HashList(h, batch)), known, force)
  }

  /** How many documents the batches add under a uid that another one of their batch was added under. */
  function SurplusOf(h: Hasher, before: Records, start: Time, opts: Options, batches: seq<seq<Document>>): nat {
    if batches == [] then 0
    else
      var front := batches[..|batches| - 1];
      SurplusOf(h, before, start, opts, front)
      + Surplus(Additions(h, batches[|batches| - 1], KnownAfter(before, start, opts, Kept(h, front)), opts.forceUpdate))
  }

  lemma SurplusStep(h: Hasher, before: Records, start: Time, opts: Options, batches: seq<seq<Document>>, b: nat, known: set<Uid>)
    requires b < |batches| && known == KnownAfter(before, start, opts, Kept(h, batches[..b]))
    ensures SurplusOf(h, before, start, opts, batches[..b + 1])
            == SurplusOf(h, before, start, opts, batches[..b]) + Surplus(Additions(h, batches[b], known, opts.forceUpdate))
  {
    LastOfFirst(batches, b);
  }

  predicate TalliedUpTo(h: Hasher, before: Records, start: Time, opts: Options, batches: seq<seq<Document>>, b: nat,
                        counts: Counts, added: seq<Stored>)
    requires b <= |batches|
  {
    Tallied(counts.ButDeleted(), added) == Tally(h, before, start, opts, batches[..b])
  }

  lemma ThenApart(c: Counts, added: seq<Stored>, d: Counts, more: seq<Stored>)
    ensures Tallied(c.ButDeleted(), added).Then(Tallied(d.ButDeleted(), more)) == Tallied(c.Plus(d).ButDeleted(), added + more)
  {
  }

  lemma TallyNext(h: Hasher, before: Records, start: Time, opts: Options, batches: seq<seq<Document>>, b: nat, known: set<Uid>,
                  counts: Counts, added: seq<Stored>, step: Counts, stepAdded: seq<Stored>)
    requires b < |batches| && known == KnownAfter(before, start, opts, Kept(h, batches[..b]))
    requires TalliedUpTo(h, before, start, opts, batches, b, counts, added)
    requires Tallied(step.ButDeleted(), stepAdded) == BatchTally(Dedup(HashList(h, batches[b])), known, opts.forceUpdate)
    ensures TalliedUpTo(h, before, start, opts, batches, b + 1, counts.Plus(step), added + stepAdded)
  {
    TallyStep(h, before, start, opts, batches, b, known);
    ThenApart(counts, added, step, stepAdded);
  }

  lemma KnownAreKeys(before: Records, mid: Records, d0: Stores, d1: Stores, kept: seq<Hashed>, opts: Options, start: Time)
    requires StoresDone(before, mid, d0, d1, kept, opts, start)
    ensures mid.Keys == KnownAfter(before, start, opts, kept)
  {
  }

  /** Where every uid has a record and nothing is cleaned up, a run adds nothing. */
  lemma {:induction false} NothingAdded(h: Hasher, before: Records, start: Time, opts: Options, batches: seq<seq<Document>>)
    requires opts.cleanup != Incremental && !opts.forceUpdate && Uids(Kept(h, batches)) <= before.Keys
    ensures Tally(h, before, start, opts, batches).added == [] && SurplusOf(h, before, start, opts, batches) == 0
  {
    if batches != [] {
      var front, hs := batches[..|batches| - 1], Dedup(HashList(h, batches[|batches| - 1]));
      UnionOfLists(opts.sourceIdKey, Kept(h, front), hs);
      NothingAdded(h, before, start, opts, front);
      assert Removed(before, start, Uids(Kept(h, front)), {}) == {};
      NothingNew(hs, KnownAfter(before, start, opts, Kept(h, front)));
    }
  }

  /** What holds of the stores, the counters and the added documents before batch `b`. */
  ghost predicate LoopState(h: Hasher, before: Records, now: Records, docs0: Stores, docs1: Stores,
                            batches: seq<seq<Document>>, b: nat, opts: Options, start: Time, counts: Counts, added: seq<Stored>)
    requires b <= |batches|
  {
    && StoresDone(before, now, docs0, docs1, Kept(h, batches[..b]), opts, start)
    && LoopCounts(before, now, SurplusOf(h, before, start, opts, batches[..b]), Kept(h, batches[..b]), opts, counts)
    && TalliedUpTo(h, before, start, opts, batches, b, counts, added)
    && AcceptedUpTo(h, batches, opts, b)
  }

  lemma EmptyRun(h: Hasher, before: Records, docs0: Stores, batches: seq<seq<Document>>, opts: Options, start: Time)
    ensures LoopState(h, before, before, docs0, docs0, batches, 0, opts, start, Counts(0, 0, 0, 0), [])
  {
  }

  /** What one turn of the loop makes of it. */
  lemma NextBatch(h: Hasher, before: Records, mid: Records, after: Records, d0: Stores, d1: Stores, d2: Stores,
                  batches: seq<seq<Document>>, b: nat, opts: Options, start: Time,
                  sofar: Counts, added: seq<Stored>, step: Counts, stepAdded: seq<Stored>)
    requires b < |batches|
    requires LoopState(h, before, mid, d0, d1, batches, b, opts, start, sofar, added)
    requires TurnDone(h, mid, after, d1, d2, batches[b], opts, start, step, stepAdded)
    ensures LoopState(h, before, after, d0, d2, batches, b + 1, opts, start, sofar.Plus(step), added + stepAdded)
    ensures InStep(mid, d1) ==> InStep(after, d2)
  {
    KnownAreKeys(before, mid, d0, d1, Kept(h, batches[..b]), opts, start);
    TallyNext(h, before, start, opts, batches, b, mid.Keys, sofar, added, step, stepAdded);
    SurplusStep(h, before, start, opts, batches, b, mid.Keys);
    RunStep(h, before, mid, after, d0, d1, d2, batches, b, opts, start, SurplusOf(h, before, start, opts, batches[..b]), sofar, step);
  }

  lemma {:induction false} BatchWithin<T>(batches: seq<seq<T>>, b: nat)
    requires b < |batches|
    ensures forall x | x in batches[b] :: x in Flatten(batches)
  {
    if b > 0 {
      BatchWithin(batches[1..], b - 1);
    }
  }

  /** The two stores after a run that returned. */
  ghost predicate RunDone(before: Records, after: Records, docs0: Stores, docs1: Stores,
                          kept: seq<Hashed>, opts: Options, start: Time) {
    && after.Keys == FinalKeys(before, start, opts.cleanup, Uids(kept), Groups(opts.sourceIdKey, kept))
    && (forall k | k in after :: if k in Uids(kept) then !Stale(after[k], start) else after[k] == before[k])
    && OriginsEffect(before, after, opts.sourceIdKey, kept)
    && (InStep(before, docs0) ==> InStep(after, docs1))
    && DocsEffect(docs0, docs1, kept, opts.forceUpdate)
  }

  /** The counters of a run that returned. */
  ghost predicate RunCounts(before: Records, after: Records, surplus: nat, kept: seq<Hashed>, opts: Options, counts: Counts) {
    && counts.added + counts.updated + counts.skipped == |kept|
    && |after| == |before| + counts.added - surplus - counts.deleted
    && (opts.cleanup != Incremental && Uids(kept) <= before.Keys && !opts.forceUpdate ==> counts.added == counts.updated == 0)
    && (opts.cleanup == Full && before.Keys <= Uids(kept) ==> counts.deleted == 0)
    && (opts.cleanup == NoCleanup ==> counts.deleted == 0)
  }

  lemma MatchingAll(rs: Records)
    ensures Matching(rs, None, None) == rs.Keys
  {
  }

  /** Stores, counters and added documents after a run that returned. */
  ghost predicate Indexed(h: Hasher, before: Records, after: Records, docs0: Stores, docs1: Stores, docs: seq<Document>,
                          opts: Options, start: Time, counts: Counts, added: seq<Stored>) {
    var batches := Batches(opts.batchSize, docs);
    && RunDone(before, after, docs0, docs1, Kept(h, batches), opts, start)
    && RunCounts(before, after, SurplusOf(h, before, start, opts, batches), Kept(h, batches), opts, counts)
    && Tallied(counts.ButDeleted(), added) == Tally(h, before, start, opts, batches)
  }

  lemma LoopEnd(h: Hasher, before: Records, now: Records, docs0: Stores, docs1: Stores,
                batches: seq<seq<Document>>, opts: Options, start: Time, counts: Counts, added: seq<Stored>)
    requires LoopState(h, before, now, docs0, docs1, batches, |batches|, opts, start, counts, added)
    ensures StoresDone(before, now, docs0, docs1, Kept(h, batches), opts, start)
    ensures LoopCounts(before, now, SurplusOf(h, before, start, opts, batches), Kept(h, batches), opts, counts)
    ensures Tallied(counts.ButDeleted(), added) == Tally(h, before, start, opts, batches)
    ensures AcceptedUpTo(h, batches, opts, |batches|) && (InStep(before, docs0) ==> InStep(now, docs1))
  {
    assert batches[..|batches|] == batches;
  }

  /** What the last cleanup, if any, makes of the stores the batches left. */
  lemma RunFinished(h: Hasher, before: Records, mid: Records, docs0: Stores, docs1: Stores, docs: seq<Document>,
                    batches: seq<seq<Document>>, opts: Options, start: Time, counts: Counts, added: seq<Stored>)
    requires batches == Batches(opts.batchSize, docs)
    requires LoopState(h, before, mid, docs0, docs1, batches, |batches|, opts, start, counts, added)
    ensures opts.cleanup != Full ==> Indexed(h, before, mid, docs0, docs1, docs, opts, start, counts, added)
    ensures opts.cleanup == Full ==>
              var gone := Matching(mid, Some(start), None);
              Indexed(h, before, mid - gone, docs0, docs1 - gone, docs, opts, start, counts.Deleting(|gone|), added)
    ensures AcceptedUpTo(h, batches, opts, |batches|) && (InStep(before, docs0) ==> InStep(mid, docs1))
  {
    var kept := Kept(h, batches);
    var surplus := SurplusOf(h, before, start, opts, batches);
    LoopEnd(h, before, mid, docs0, docs1, batches, opts, start, counts, added);
    if opts.cleanup == Full {
      FullCleaned(before, mid, docs0, docs1, surplus, kept, opts, start, counts);
      OnlyDeletions(counts, |Matching(mid, Some(start), None)|);
    } else {
      NothingToClean(before, mid, docs0, docs1, surplus, kept, opts, start, counts);
    }
  }

  lemma NothingToClean(before: Records, after: Records, docs0: Stores, docs1: Stores, surplus: nat,
                       kept: seq<Hashed>, opts: Options, start: Time, counts: Counts)
    requires opts.cleanup != Full
    requires StoresDone(before, after, docs0, docs1, kept, opts, start) && LoopCounts(before, after, surplus, kept, opts, counts)
    ensures RunDone(before, after, docs0, docs1, kept, opts, start) && RunCounts(before, after, surplus, kept, opts, counts)
  {
    assert RunDone(before, after, docs0, docs1, kept, opts, start) by {
      StoresAsFinal(before, after, docs0, docs1, kept, opts, start);
    }
    CountsAsFinal(before, after, surplus, kept, opts, counts);
  }

  lemma StoresAsFinal(before: Records, after: Records, docs0: Stores, docs1: Stores, kept: seq<Hashed>, opts: Options, start: Time)
    requires opts.cleanup != Full && StoresDone(before, after, docs0, docs1, kept, opts, start)
    ensures RunDone(before, after, docs0, docs1, kept, opts, start)
  {
    if opts.cleanup == NoCleanup {
      assert Removed(before, start, Uids(kept), {}) == {};
    }
  }

  lemma CountsAsFinal(before: Records, after: Records, surplus: nat, kept: seq<Hashed>, opts: Options, counts: Counts)
    requires opts.cleanup != Full && LoopCounts(before, after, surplus, kept, opts, counts)
    ensures RunCounts(before, after, surplus, kept, opts, counts)
  {
  }

  lemma OriginsOfRest(before: Records, mid: Records, gone: set<Uid>, key: SourceKey, kept: seq<Hashed>)
    requires OriginsEffect(before, mid, key, kept)
    ensures OriginsEffect(before, mid - gone, key, kept)
  {
  }

  lemma FullCleaned(before: Records, mid: Records, docs0: Stores, docs1: Stores, surplus: nat,
                    kept: seq<Hashed>, opts: Options, start: Time, counts: Counts)
    requires opts.cleanup == Full
    requires StoresDone(before, mid, docs0, docs1, kept, opts, start) && LoopCounts(before, mid, surplus, kept, opts, counts)
    ensures var gone := Matching(mid, Some(start), None);
            && RunDone(before, mid - gone, docs0, docs1 - gone, kept, opts, start)
            && RunCounts(before, mid - gone, surplus, kept, opts, counts.Deleting(|gone|))
  {
    var gone := Matching(mid, Some(start), None);
    StaleGone(before, mid, start, Uids(kept));
    assert RunDone(before, mid - gone, docs0, docs1 - gone, kept, opts, start) by {
      OriginsOfRest(before, mid, gone, opts.sourceIdKey, kept);
      Untouched(before, mid, start, Uids(kept), {});
    }
    assert |mid - gone| == |mid| - |gone| by {
      assert (mid - gone).Keys == mid.Keys - gone;
    }
    FullCounts(before, mid, mid - gone, surplus, kept, opts, counts, |gone|);
  }

  lemma FullCounts(before: Records, mid: Records, after: Records, surplus: nat, kept: seq<Hashed>, opts: Options,
                   counts: Counts, gone: nat)
    requires opts.cleanup == Full && LoopCounts(before, mid, surplus, kept, opts, counts)
    requires |after| == |mid| - gone && (before.Keys <= Uids(kept) ==> gone == 0)
    ensures RunCounts(before, after, surplus, kept, opts, counts.Deleting(gone))
  {
  }

  /** What the full cleanup removes is old, stale and not kept. */
  lemma StaleGone(before: Records, mid: Records, start: Time, uids: set<Uid>)
    requires RecordsEffect(before, mid, start, uids, {})
    ensures var gone := Matching(mid, Some(start), None);
            && mid.Keys - gone == uids + (set k | k in before && !Stale(before[k], start))
            && (before.Keys <= uids ==> gone == {})
  {
    var gone := Matching(mid, Some(start), None);
    assert Removed(before, start, uids, {}) == {};
    forall k ensures k in mid.Keys - gone <==> k in uids || (k in before && !Stale(before[k], start)) { }
  }

  // ---------- a second run ----------

  /** Old keys outside the documents that were fresh when the first run began and stale when the second did. */
  function StaleMeanwhile(before: Records, uids: set<Uid>, start1: Time, start2: Time): set<Uid> {
    set k | k in before && k !in uids && !Stale(before[k], start1) && Stale(before[k], start2)
  }

  /** The keys the second run leaves, by what both runs do to the records. */
  lemma SecondKeys(before: Records, between: Records, after: Records, uids: set<Uid>, groups: set<string>, start1: Time, start2: Time)
    requires between.Keys == FinalKeys(before, start1, Full, uids, groups)
    requires forall k | k in between && k !in uids :: between[k] == before[k]
    requires after.Keys == FinalKeys(between, start2, Full, uids, groups)
    ensures var late := StaleMeanwhile(before, uids, start1, start2); late <= between.Keys && after.Keys == between.Keys - late
  {
  }

  lemma KeysGone(a: Records, b: Records, gone: set<Uid>)
    requires gone <= a.Keys && b.Keys == a.Keys - gone
    ensures |b| == |a| - |gone|
  {
    assert |a| == |a.Keys| && |b| == |b.Keys|;
  }

  /**
    The repeated run: a full run over the same documents, starting from the stores the first
    one left, adds and updates nothing. It deletes exactly the old keys that became stale
    between the two starts, whatever the clock did.
   */
  lemma SecondRun(h: Hasher, before: Records, between: Records, after: Records, docs0: Stores, docs1: Stores, docs2: Stores,
                  docs: seq<Document>, opts: Options, start1: Time, start2: Time,
                  first: Counts, added1: seq<Stored>, second: Counts, added2: seq<Stored>)
    requires opts.cleanup == Full && !opts.forceUpdate
    requires Indexed(h, before, between, docs0, docs1, docs, opts, start1, first, added1)
    requires Indexed(h, between, after, docs1, docs2, docs, opts, start2, second, added2)
    ensures second.added == second.updated == 0 && added2 == []
    ensures var late := StaleMeanwhile(before, Uids(Kept(h, Batches(opts.batchSize, docs))), start1, start2);
            second.deleted == |late| && late <= between.Keys && after.Keys == between.Keys - late && |after| == |between| - |late|
  {
    var kept := Kept(h, Batches(opts.batchSize, docs));
    NothingAdded(h, between, start2, opts, Batches(opts.batchSize, docs));
    SecondKeys(before, between, after, Uids(kept), Groups(opts.sourceIdKey, kept), start1, start2);
    KeysGone(between, after, StaleMeanwhile(before, Uids(kept), start1, start2));
  }

  /** So it deletes nothing exactly if no old key outside the documents became stale meanwhile. */
  lemma NothingStaleMeanwhile(before: Records, uids: set<Uid>, start1: Time, start2: Time)
    ensures |StaleMeanwhile(before, uids, start1, start2)| == 0
            <==> forall k | k in before && k !in uids :: Stale(before[k], start2) ==> Stale(before[k], start1)
  {
    var late := StaleMeanwhile(before, uids, start1, start2);
    assert |late| == 0 <==> late == {};
    if k :| k in before && k !in uids && Stale(before[k], start2) && !Stale(before[k], start1) {
      assert k in late;
    }
  }

  /** Two runs in a row. */
  method IndexTwice(indexer: Indexer, docs: seq<Document>, opts: Options)
    returns (first: Result<IndexingResult>, second: Result<IndexingResult>, ghost start1: Time, ghost start2: Time)
    requires opts.cleanup == Full && !opts.forceUpdate
    modifies indexer`trace, indexer`origin, indexer.rm, indexer.vs
    ensures start1 == indexer.rm.clock(old(indexer.rm.readings))
    ensures first.Ok? && second.Ok? ==>
              var late := StaleMeanwhile(old(indexer.rm.records), Uids(Kept(indexer.hasher, Batches(opts.batchSize, docs))), start1, start2);
              && second.value.counts.added == second.value.counts.updated == 0 && second.value.addedDocs == []
              && second.value.counts.deleted == |late| && second.value.totalKeys == first.value.totalKeys - |late|
  {
    ghost var before, docs0 := indexer.rm.records, indexer.vs.docs;
    first, start1 := indexer.Index(docs, opts);
    if first.Err? { return first, first, start1, start1; }
    ghost var between, docs1 := indexer.rm.records, indexer.vs.docs;
    second, start2 := indexer.Index(docs, opts);
    if second.Ok? {
      SecondRun(indexer.hasher, before, between, indexer.rm.records, docs0, docs1, indexer.vs.docs, docs, opts, start1, start2,
                first.value.counts, first.value.addedDocs, second.value.counts, second.value.addedDocs);
    }
  }

  /**
    A key that no document has, stamped when the first run began: two runs over no documents, the
    second one second later, of which the first deletes nothing and the second one key.
   */
  lemma StampedAtStart(h: Hasher, opts: Options, k: Uid, r: Record, between: Records, after: Records,
                       docs0: Stores, docs1: Stores, docs2: Stores,
                       first: Counts, added1: seq<Stored>, second: Counts, added2: seq<Stored>)
    requires opts.cleanup == Full && !opts.forceUpdate
    requires Indexed(h, map[k := r], between, docs0, docs1, [], opts, r.updatedAt, first, added1)
    requires Indexed(h, between, after, docs1, docs2, [], opts, r.updatedAt + 1, second, added2)
    ensures between.Keys == {k} && first.deleted == 0
    ensures after.Keys == {} && second.deleted == 1
  {
    var before: Records := map[k := r];
    var none := Kept(h, Batches(opts.batchSize, []));
    assert none == [] && Uids(none) == {};
    SecondRun(h, before, between, after, docs0, docs1, docs2, [], opts, r.updatedAt, r.updatedAt + 1, first, added1, second, added2);
    assert StaleMeanwhile(before, {}, r.updatedAt, r.updatedAt + 1) == {k};
    assert between.Keys == {k};
    KeysGone(before, between, {});
  }
}
