/**
  How the counters of the indexer depend on the batch size, exactly. Two things make the
  difference: a document that an earlier batch's cleanup has removed is added again, and a
  document that an earlier batch has already stored counts a second time.
 */
module IndexingCounters {
  import opened Common
  import opened Indexing

  /** The uids of one batch. */
  function BatchUids(h: Hasher, batch: seq<Document>): set<Uid> {
    Uids(Dedup(HashList(h, batch)))
  }

  /** The old keys that the cleanups of some batches have removed. */
  function RemovedBy(h: Hasher, before: Records, start: Time, opts: Options, batches: seq<seq<Document>>): set<Uid> {
    Removed(before, start, Uids(Kept(h, batches)), SeenGroups(opts, Kept(h, batches)))
  }

  /** How many documents of batch `b` an earlier batch's cleanup has removed. */
  function ReaddedIn(h: Hasher, before: Records, start: Time, opts: Options, batches: seq<seq<Document>>, b: nat): nat
    requires b < |batches|
  {
    |BatchUids(h, batches[b]) * RemovedBy(h, before, start, opts, batches[..b])|
  }

  /** How many documents of batch `b` an earlier batch had already. */
  function RepeatedIn(h: Hasher, batches: seq<seq<Document>>, b: nat): nat
    requires b < |batches|
  {
    |BatchUids(h, batches[b]) * Uids(Kept(h, batches[..b]))|
  }

  function Sum(ns: seq<nat>): nat {
    if ns == [] then 0 else Sum(ns[..|ns| - 1]) + ns[|ns| - 1]
  }

  predicate AllZero(ns: seq<nat>) {
    forall i | 0 <= i < |ns| :: ns[i] == 0
  }

  lemma {:induction false} SumZero(ns: seq<nat>)
    ensures Sum(ns) == 0 <==> AllZero(ns)
  {
    if ns != [] {
      SumZero(ns[..|ns| - 1]);
    }
  }

  lemma SumStep(ns: seq<nat>, b: nat)
    requires b < |ns|
    ensures Sum(ns[..b + 1]) == Sum(ns[..b]) + ns[b]
  {
    assert ns[..b + 1][..b] == ns[..b];
  }

  /** Both numbers, batch by batch. */
  function Readded(h: Hasher, before: Records, start: Time, opts: Options, batches: seq<seq<Document>>): seq<nat> {
    seq(|batches|, b requires 0 <= b < |batches| => ReaddedIn(h, before, start, opts, batches, b))
  }

  function Repeated(h: Hasher, batches: seq<seq<Document>>): seq<nat> {
    seq(|batches|, b requires 0 <= b < |batches| => RepeatedIn(h, batches, b))
  }

  /** No batch has a document that the cleanup of an earlier one removed. */
  predicate NoneReadded(h: Hasher, before: Records, start: Time, opts: Options, batches: seq<seq<Document>>) {
    AllZero(Readded(h, before, start, opts, batches))
  }

  /** No document comes in two batches. */
  predicate NoneRepeated(h: Hasher, batches: seq<seq<Document>>) {
    AllZero(Repeated(h, batches))
  }

  lemma NoneOfBoth(h: Hasher, before: Records, start: Time, opts: Options, batches: seq<seq<Document>>)
    ensures Sum(Readded(h, before, start, opts, batches)) == 0 <==> NoneReadded(h, before, start, opts, batches)
    ensures Sum(Repeated(h, batches)) == 0 <==> NoneRepeated(h, batches)
  {
    SumZero(Readded(h, before, start, opts, batches));
    SumZero(Repeated(h, batches));
  }

  // ---------- one batch ----------

  lemma CountsOfBatch(hs: seq<Hashed>, known: set<Uid>, force: bool)
    ensures var c := CountsOf(hs, known, force);
            && c.added == |Uids(hs) - known| + Surplus(ToIndex(hs, known, force))
            && c.updated + c.skipped == |Uids(hs) * known| + Surplus(ToRestamp(hs, known, force))
            && (if force then c.skipped == 0 else c.updated == 0)
  {
    ToIndexCount(hs, known, force);
    ToRestampEffect(hs, known, force);
    if force { RestampNothing(hs, known); }
  }

  lemma {:induction false} RestampNothing(hs: seq<Hashed>, known: set<Uid>)
    ensures ToRestamp(hs, known, true) == []
  {
    if hs != [] {
      RestampNothing(hs[..|hs| - 1], known);
    }
  }

  /** Sizes when `u` meets what was known: the old keys `b` and the kept ones `k`, without the removed ones `r`. */
  lemma MeetSizes(u: set<Uid>, b: set<Uid>, k: set<Uid>, r: set<Uid>)
    requires r <= b && r !! k
    ensures |u - ((b + k) - r)| == |(k + u) - b| - |k - b| + |u * r|
    ensures |u * ((b + k) - r)| == |(k + u) * b| - |k * b| + |u * k| - |u * r|
  {
    assert u - ((b + k) - r) == (u - (b + k)) + (u * r);
    assert (k + u) - b == (k - b) + (u - (b + k));
    assert u * (b + k) == (u * ((b + k) - r)) + (u * r);
    assert u * (b + k) == (u * b - k) + (u * k);
    assert (k + u) * b == (k * b) + (u * b - k);
  }

  // ---------- all batches ----------

  lemma KeptUids(h: Hasher, batches: seq<seq<Document>>, b: nat)
    requires b < |batches|
    ensures Uids(Kept(h, batches[..b + 1])) == Uids(Kept(h, batches[..b])) + BatchUids(h, batches[b])
  {
    KeptStep(h, batches, b);
    UnionOfLists(NoKey, Kept(h, batches[..b]), Dedup(HashList(h, batches[b])));
  }

  lemma RemovedAreOld(h: Hasher, before: Records, start: Time, opts: Options, batches: seq<seq<Document>>)
    ensures RemovedBy(h, before, start, opts, batches) <= before.Keys
    ensures RemovedBy(h, before, start, opts, batches) !! Uids(Kept(h, batches))
  {
  }

  /** The documents of batch `b` that are added, and those that are only restamped. */
  function AddedIn(h: Hasher, before: Records, start: Time, opts: Options, batches: seq<seq<Document>>, b: nat): seq<Hashed>
    requires b < |batches|
  {
    Additions(h, batches[b], KnownAfter(before, start, opts, Kept(h, batches[..b])), opts.forceUpdate)
  }

  function RestampedIn(h: Hasher, before: Records, start: Time, opts: Options, batches: seq<seq<Document>>, b: nat): seq<Hashed>
    requires b < |batches|
  {
    ToRestamp(Dedup(HashList(h, batches[b])), KnownAfter(before, start, opts, Kept(h, batches[..b])), opts.forceUpdate)
  }

  /** How many of them come under a uid that another one of them has. */
  function AddedTwice(h: Hasher, before: Records, start: Time, opts: Options, batches: seq<seq<Document>>): seq<nat> {
    seq(|batches|, b requires 0 <= b < |batches| => Surplus(AddedIn(h, before, start, opts, batches, b)))
  }

  function RestampedTwice(h: Hasher, before: Records, start: Time, opts: Options, batches: seq<seq<Document>>): seq<nat> {
    seq(|batches|, b requires 0 <= b < |batches| => Surplus(RestampedIn(h, before, start, opts, batches, b)))
  }

  /** What the counters have beyond the uids: documents added again, repeated, or under one uid. */
  function MoreAdded(h: Hasher, before: Records, start: Time, opts: Options, batches: seq<seq<Document>>, n: nat): int
    requires n <= |batches|
  {
    Sum(Readded(h, before, start, opts, batches)[..n]) + Sum(AddedTwice(h, before, start, opts, batches)[..n])
  }

  function MoreMet(h: Hasher, before: Records, start: Time, opts: Options, batches: seq<seq<Document>>, n: nat): int
    requires n <= |batches|
  {
    Sum(Repeated(h, batches)[..n]) - Sum(Readded(h, before, start, opts, batches)[..n])
    + Sum(RestampedTwice(h, before, start, opts, batches)[..n])
  }

  /** The counters before batch `n`. */
  ghost predicate CountersAt(h: Hasher, before: Records, start: Time, opts: Options, batches: seq<seq<Document>>, n: nat)
    requires n <= |batches|
  {
    var c, uids := Tally(h, before, start, opts, batches[..n]).counts, Uids(Kept(h, batches[..n]));
    && c.added == |uids - before.Keys| + MoreAdded(h, before, start, opts, batches, n)
    && c.updated + c.skipped == |uids * before.Keys| + MoreMet(h, before, start, opts, batches, n)
    && (if opts.forceUpdate then c.skipped == 0 else c.updated == 0)
  }

  lemma MoreStep(h: Hasher, before: Records, start: Time, opts: Options, batches: seq<seq<Document>>, b: nat)
    requires b < |batches|
    ensures MoreAdded(h, before, start, opts, batches, b + 1)
            == MoreAdded(h, before, start, opts, batches, b)
               + ReaddedIn(h, before, start, opts, batches, b) + Surplus(AddedIn(h, before, start, opts, batches, b))
    ensures MoreMet(h, before, start, opts, batches, b + 1)
            == MoreMet(h, before, start, opts, batches, b)
               + RepeatedIn(h, batches, b) - ReaddedIn(h, before, start, opts, batches, b)
               + Surplus(RestampedIn(h, before, start, opts, batches, b))
  {
    SumStep(Readded(h, before, start, opts, batches), b);
    SumStep(Repeated(h, batches), b);
    SumStep(AddedTwice(h, before, start, opts, batches), b);
    SumStep(RestampedTwice(h, before, start, opts, batches), b);
  }

  lemma CountersStep(h: Hasher, before: Records, start: Time, opts: Options, batches: seq<seq<Document>>, b: nat)
    requires b < |batches| && CountersAt(h, before, start, opts, batches, b)
    ensures CountersAt(h, before, start, opts, batches, b + 1)
  {
    var hs, known := Dedup(HashList(h, batches[b])), KnownAfter(before, start, opts, Kept(h, batches[..b]));
    TallyStep(h, before, start, opts, batches, b, known);
    CountsOfBatch(hs, known, opts.forceUpdate);
    KeptUids(h, batches, b);
    MoreStep(h, before, start, opts, batches, b);
    RemovedAreOld(h, before, start, opts, batches[..b]);
    MeetSizes(Uids(hs), before.Keys, Uids(Kept(h, batches[..b])), RemovedBy(h, before, start, opts, batches[..b]));
  }

  lemma CountersAtFirst(h: Hasher, before: Records, start: Time, opts: Options, batches: seq<seq<Document>>)
    ensures CountersAt(h, before, start, opts, batches, 0)
  {
    assert batches[..0] == [] && Uids(Kept(h, [])) == {};
    assert {} - before.Keys == {} && {} * before.Keys == {};
  }

  lemma {:induction false} CountersUpTo(h: Hasher, before: Records, start: Time, opts: Options, batches: seq<seq<Document>>, n: nat)
    requires n <= |batches|
    ensures CountersAt(h, before, start, opts, batches, n)
  {
    if n == 0 {
      CountersAtFirst(h, before, start, opts, batches);
    } else {
      CountersUpTo(h, before, start, opts, batches, n - 1);
      CountersStep(h, before, start, opts, batches, n - 1);
    }
  }

  /** The counters of the batch loop, for all documents, every list of batches and every cleanup mode. */
  lemma TallyExactly(h: Hasher, before: Records, start: Time, opts: Options, batches: seq<seq<Document>>)
    ensures var c, uids := Tally(h, before, start, opts, batches).counts, Uids(Kept(h, batches));
            && c.added == |uids - before.Keys|
                          + Sum(Readded(h, before, start, opts, batches)) + Sum(AddedTwice(h, before, start, opts, batches))
            && c.updated + c.skipped == |uids * before.Keys| + Sum(Repeated(h, batches))
                                        - Sum(Readded(h, before, start, opts, batches)) + Sum(RestampedTwice(h, before, start, opts, batches))
            && (if opts.forceUpdate then c.skipped == 0 else c.updated == 0)
  {
    CountersUpTo(h, before, start, opts, batches, |batches|);
    assert batches[..|batches|] == batches;
    AllOf(Readded(h, before, start, opts, batches));
    AllOf(Repeated(h, batches));
    AllOf(AddedTwice(h, before, start, opts, batches));
    AllOf(RestampedTwice(h, before, start, opts, batches));
  }

  lemma AllOf(ns: seq<nat>)
    ensures ns[..|ns|] == ns
  {
  }

  // ---------- the key count ----------

  lemma {:induction false} SurplusIsSum(h: Hasher, before: Records, start: Time, opts: Options, batches: seq<seq<Document>>, n: nat)
    requires n <= |batches|
    ensures SurplusOf(h, before, start, opts, batches[..n]) == Sum(AddedTwice(h, before, start, opts, batches)[..n])
  {
    if n > 0 {
      SurplusIsSum(h, before, start, opts, batches, n - 1);
      SurplusSumStep(h, before, start, opts, batches, n - 1);
    }
  }

  lemma SurplusSumStep(h: Hasher, before: Records, start: Time, opts: Options, batches: seq<seq<Document>>, b: nat)
    requires b < |batches|
    ensures SurplusOf(h, before, start, opts, batches[..b + 1])
            == SurplusOf(h, before, start, opts, batches[..b]) + Surplus(AddedIn(h, before, start, opts, batches, b))
    ensures Sum(AddedTwice(h, before, start, opts, batches)[..b + 1])
            == Sum(AddedTwice(h, before, start, opts, batches)[..b]) + Surplus(AddedIn(h, before, start, opts, batches, b))
  {
    SurplusStep(h, before, start, opts, batches, b, KnownAfter(before, start, opts, Kept(h, batches[..b])));
    SumStep(AddedTwice(h, before, start, opts, batches), b);
  }

  /** No batch adds two documents under one uid. */
  predicate NoneAddedTwice(h: Hasher, before: Records, start: Time, opts: Options, batches: seq<seq<Document>>) {
    forall b | 0 <= b < |batches| :: DistinctUids(AddedIn(h, before, start, opts, batches, b))
  }

  lemma NoneTwice(h: Hasher, before: Records, start: Time, opts: Options, batches: seq<seq<Document>>)
    ensures SurplusOf(h, before, start, opts, batches) == 0 <==> NoneAddedTwice(h, before, start, opts, batches)
  {
    var ns := AddedTwice(h, before, start, opts, batches);
    SurplusIsSum(h, before, start, opts, batches, |batches|);
    assert batches[..|batches|] == batches && ns[..|batches|] == ns;
    SumZero(ns);
    forall b | 0 <= b < |batches| ensures ns[b] == 0 <==> DistinctUids(AddedIn(h, before, start, opts, batches, b)) {
      NoSurplus(AddedIn(h, before, start, opts, batches, b));
    }
  }

  /** Additions and deletions of a run account for the change of the key count exactly if no batch adds two documents under one uid. */
  lemma ConservedExactly(h: Hasher, before: Records, after: Records, docs0: Stores, docs1: Stores, docs: seq<Document>,
                         opts: Options, start: Time, counts: Counts, added: seq<Stored>)
    requires Indexed(h, before, after, docs0, docs1, docs, opts, start, counts, added)
    ensures |after| == |before| + counts.added - counts.deleted
            <==> NoneAddedTwice(h, before, start, opts, Batches(opts.batchSize, docs))
  {
    NoneTwice(h, before, start, opts, Batches(opts.batchSize, docs));
  }

  /** The surplus of a batch is split between what is added and what is restamped. */
  lemma SurplusSplit(hs: seq<Hashed>, known: set<Uid>, force: bool)
    ensures Surplus(ToIndex(hs, known, force)) + Surplus(ToRestamp(hs, known, force)) == Surplus(hs)
  {
    var idx, re := ToIndex(hs, known, force), ToRestamp(hs, known, force);
    ToIndexEffect(hs, known, force);
    ToRestampEffect(hs, known, force);
    PartSizes(Uids(hs), known);
    assert |idx| + |re| == |hs|;
    assert |Uids(idx)| + |Uids(re)| == |Uids(hs)|;
  }

  lemma ApartStays(hs: seq<Hashed>, known: set<Uid>, force: bool)
    requires DistinctUids(hs)
    ensures Surplus(ToIndex(hs, known, force)) == 0 && Surplus(ToRestamp(hs, known, force)) == 0
  {
    NoSurplus(hs);
    SurplusSplit(hs, known, force);
  }

  lemma NothingTwice(h: Hasher, before: Records, start: Time, opts: Options, docs: seq<Document>, size: int)
    requires UidsApart(h, docs)
    ensures var batches := Batches(size, docs);
            && NoneAddedTwice(h, before, start, opts, batches)
            && Sum(AddedTwice(h, before, start, opts, batches)) == 0 && Sum(RestampedTwice(h, before, start, opts, batches)) == 0
  {
    var batches := Batches(size, docs);
    BatchesPartition(size, docs);
    forall b | 0 <= b < |batches|
      ensures Surplus(AddedIn(h, before, start, opts, batches, b)) == 0 && Surplus(RestampedIn(h, before, start, opts, batches, b)) == 0
      ensures DistinctUids(AddedIn(h, before, start, opts, batches, b))
    {
      BatchWithin(batches, b);
      DedupDistinctUids(h, batches[b]);
      ApartStays(Dedup(HashList(h, batches[b])), KnownAfter(before, start, opts, Kept(h, batches[..b])), opts.forceUpdate);
      NoSurplus(AddedIn(h, before, start, opts, batches, b));
    }
    SumZero(AddedTwice(h, before, start, opts, batches));
    SumZero(RestampedTwice(h, before, start, opts, batches));
  }

  // ---------- one batch or several ----------

  lemma UidsOfDocuments(h: Hasher, docs: seq<Document>, size: int)
    requires Faithful(h, NoKey, docs)
    ensures Uids(Kept(h, Batches(size, docs))) == Uids(Dedup(HashList(h, docs)))
  {
    BatchesPartition(size, docs);
    KeptUidsAndGroups(h, NoKey, Batches(size, docs));
    DedupUidsAndGroups(h, NoKey, docs);
  }

  /** The surplus when all documents are one batch. */
  function AddedTwiceAsOne(h: Hasher, before: Records, opts: Options, docs: seq<Document>): nat {
    Surplus(Additions(h, docs, before.Keys, opts.forceUpdate))
  }

  function RestampedTwiceAsOne(h: Hasher, before: Records, opts: Options, docs: seq<Document>): nat {
    Surplus(ToRestamp(Dedup(HashList(h, docs)), before.Keys, opts.forceUpdate))
  }

  /** All documents in one batch report these counters. */
  lemma OneBatch(h: Hasher, before: Records, start: Time, opts: Options, docs: seq<Document>)
    ensures var c, uids := Tally(h, before, start, opts, [docs]).counts, Uids(Dedup(HashList(h, docs)));
            && c.added == |uids - before.Keys| + AddedTwiceAsOne(h, before, opts, docs)
            && c.updated + c.skipped == |uids * before.Keys| + RestampedTwiceAsOne(h, before, opts, docs)
            && (if opts.forceUpdate then c.skipped == 0 else c.updated == 0)
  {
    TallyOneBatch(h, before, start, opts, docs);
    CountsOfBatch(Dedup(HashList(h, docs)), before.Keys, opts.forceUpdate);
  }

  /** The counters of a run in batches of some size. */
  function InBatches(h: Hasher, before: Records, start: Time, opts: Options, docs: seq<Document>, size: int): Counts {
    Tally(h, before, start, opts, Batches(size, docs)).counts
  }

  /** ... and of a run in a single batch. */
  function AsOne(h: Hasher, before: Records, start: Time, opts: Options, docs: seq<Document>): Counts {
    Tally(h, before, start, opts, [docs]).counts
  }

  /** Batches report the additions of a single batch exactly if they add as many documents again, or under one uid, as it does. */
  lemma SameAdditions(h: Hasher, before: Records, start: Time, opts: Options, docs: seq<Document>, size: int)
    requires Faithful(h, NoKey, docs)
    ensures var batches := Batches(size, docs);
            InBatches(h, before, start, opts, docs, size).added == AsOne(h, before, start, opts, docs).added
            <==> Sum(Readded(h, before, start, opts, batches)) + Sum(AddedTwice(h, before, start, opts, batches))
                 == AddedTwiceAsOne(h, before, opts, docs)
  {
    UidsOfDocuments(h, docs, size);
    TallyExactly(h, before, start, opts, Batches(size, docs));
    OneBatch(h, before, start, opts, docs);
  }

  /** ... and its updates and skips exactly if as many more documents come again as are added again. */
  lemma SameMeetings(h: Hasher, before: Records, start: Time, opts: Options, docs: seq<Document>, size: int)
    requires Faithful(h, NoKey, docs)
    ensures var batches, c, one := Batches(size, docs), InBatches(h, before, start, opts, docs, size), AsOne(h, before, start, opts, docs);
            c.updated == one.updated && c.skipped == one.skipped
            <==> Sum(Repeated(h, batches)) + Sum(RestampedTwice(h, before, start, opts, batches))
                 == Sum(Readded(h, before, start, opts, batches)) + RestampedTwiceAsOne(h, before, opts, docs)
  {
    UidsOfDocuments(h, docs, size);
    TallyExactly(h, before, start, opts, Batches(size, docs));
    OneBatch(h, before, start, opts, docs);
  }

  lemma NothingTwiceAsOne(h: Hasher, before: Records, opts: Options, docs: seq<Document>)
    requires UidsApart(h, docs)
    ensures AddedTwiceAsOne(h, before, opts, docs) == 0 && RestampedTwiceAsOne(h, before, opts, docs) == 0
  {
    DedupDistinctUids(h, docs);
    ApartStays(Dedup(HashList(h, docs)), before.Keys, opts.forceUpdate);
  }

  /** With uids apart, the additions are the same exactly if no batch has a document that an earlier one's cleanup removed. */
  lemma AddedIsBatchFree(h: Hasher, before: Records, start: Time, opts: Options, docs: seq<Document>, size: int)
    requires Faithful(h, NoKey, docs) && UidsApart(h, docs)
    ensures InBatches(h, before, start, opts, docs, size).added == AsOne(h, before, start, opts, docs).added
            <==> NoneReadded(h, before, start, opts, Batches(size, docs))
  {
    SameAdditions(h, before, start, opts, docs, size);
    NothingTwice(h, before, start, opts, docs, size);
    NothingTwiceAsOne(h, before, opts, docs);
    NoneOfBoth(h, before, start, opts, Batches(size, docs));
  }

  /** The updates and skips are, exactly if as many documents come again in a later batch as are added again. */
  lemma MetIsBatchFree(h: Hasher, before: Records, start: Time, opts: Options, docs: seq<Document>, size: int)
    requires Faithful(h, NoKey, docs) && UidsApart(h, docs)
    ensures var batches, c, one := Batches(size, docs), InBatches(h, before, start, opts, docs, size), AsOne(h, before, start, opts, docs);
            c.updated == one.updated && c.skipped == one.skipped
            <==> Sum(Repeated(h, batches)) == Sum(Readded(h, before, start, opts, batches))
  {
    SameMeetings(h, before, start, opts, docs, size);
    NothingTwice(h, before, start, opts, docs, size);
    NothingTwiceAsOne(h, before, opts, docs);
  }

  /** All counters but deletions are the same exactly if, beyond that, no document comes in two batches. */
  lemma CountersAreBatchFree(h: Hasher, before: Records, start: Time, opts: Options, docs: seq<Document>, size: int)
    requires Faithful(h, NoKey, docs) && UidsApart(h, docs)
    ensures var batches := Batches(size, docs);
            InBatches(h, before, start, opts, docs, size) == AsOne(h, before, start, opts, docs)
            <==> NoneReadded(h, before, start, opts, batches) && NoneRepeated(h, batches)
  {
    AddedIsBatchFree(h, before, start, opts, docs, size);
    SameMeetings(h, before, start, opts, docs, size);
    NothingTwice(h, before, start, opts, docs, size);
    NothingTwiceAsOne(h, before, opts, docs);
    NoneOfBoth(h, before, start, opts, Batches(size, docs));
    NoDeletions(h, before, start, opts, Batches(size, docs));
    NoDeletions(h, before, start, opts, [docs]);
  }

  lemma {:induction false} NoDeletions(h: Hasher, before: Records, start: Time, opts: Options, batches: seq<seq<Document>>)
    ensures Tally(h, before, start, opts, batches).counts.deleted == 0
  {
    if batches != [] {
      NoDeletions(h, before, start, opts, batches[..|batches| - 1]);
    }
  }

  /**
    What a caller can look for: a document whose record is stale and whose old group was the
    source of an earlier batch, unless it was in an earlier batch itself.
   */
  lemma NoneReaddedInBatch(h: Hasher, before: Records, start: Time, opts: Options, batches: seq<seq<Document>>, b: nat)
    requires b < |batches|
    ensures ReaddedIn(h, before, start, opts, batches, b) == 0 <==>
              var earlier := Kept(h, batches[..b]);
              forall k | k in BatchUids(h, batches[b]) && k in before && Stale(before[k], start)
                         && before[k].group.Some? && before[k].group.value in SeenGroups(opts, earlier) :: k in Uids(earlier)
  {
    var both := BatchUids(h, batches[b]) * RemovedBy(h, before, start, opts, batches[..b]);
    assert |both| == 0 <==> both == {};
    assert both == {} <==> forall k | k in BatchUids(h, batches[b]) :: k !in RemovedBy(h, before, start, opts, batches[..b]) by {
      if both != {} { var k :| k in both; }
      if k :| k in BatchUids(h, batches[b]) && k in RemovedBy(h, before, start, opts, batches[..b]) { assert k in both; }
    }
  }

  lemma NothingReadded(h: Hasher, before: Records, start: Time, opts: Options, batches: seq<seq<Document>>)
    requires opts.cleanup != Incremental
    ensures NoneReadded(h, before, start, opts, batches)
  {
    forall b | 0 <= b < |batches| ensures ReaddedIn(h, before, start, opts, batches, b) == 0 {
      assert RemovedBy(h, before, start, opts, batches[..b]) == {};
    }
  }

  /** Without cleanup by source nothing is removed before the last batch, so only repeated documents matter, and only for skips and updates. */
  lemma WithoutSourceCleanup(h: Hasher, before: Records, start: Time, opts: Options, docs: seq<Document>, size: int)
    requires Faithful(h, NoKey, docs) && UidsApart(h, docs) && opts.cleanup != Incremental
    ensures InBatches(h, before, start, opts, docs, size).added == AsOne(h, before, start, opts, docs).added
    ensures InBatches(h, before, start, opts, docs, size) == AsOne(h, before, start, opts, docs) <==> NoneRepeated(h, Batches(size, docs))
  {
    NothingReadded(h, before, start, opts, Batches(size, docs));
    AddedIsBatchFree(h, before, start, opts, docs, size);
    CountersAreBatchFree(h, before, start, opts, docs, size);
  }

  // ---------- inputs for which they differ ----------

  lemma KnownAtFirst(before: Records, start: Time, opts: Options)
    ensures KnownAfter(before, start, opts, []) == before.Keys
  {
    assert Uids([]) == {} && Groups(opts.sourceIdKey, []) == {};
    assert Removed(before, start, {}, {}) == {};
  }

  lemma FirstTally(o: Tallied)
    ensures Tallied(Counts(0, 0, 0, 0), []).Then(o) == o
  {
  }

  lemma TallyOneBatch(h: Hasher, before: Records, start: Time, opts: Options, batch: seq<Document>)
    ensures Tally(h, before, start, opts, [batch]) == BatchTally(Dedup(HashList(h, batch)), before.Keys, opts.forceUpdate)
  {
    KnownAtFirst(before, start, opts);
    assert [batch][..1] == [batch] && [batch][..0] == [];
    TallyStep(h, before, start, opts, [batch], 0, before.Keys);
    FirstTally(BatchTally(Dedup(HashList(h, batch)), before.Keys, opts.forceUpdate));
  }

  /** One or two documents with different hashes, all of them known or not. */
  lemma SmallBatch(x: Hashed, y: Hashed, known: set<Uid>)
    requires x.hash != y.hash
    ensures Dedup([x]) == [x] && Dedup([x, y]) == [x, y]
    ensures ToIndex([x], known, false) == if x.uid in known then [] else [x]
    ensures ToRestamp([x], known, false) == if x.uid in known then [x] else []
    ensures x.uid in known && y.uid in known ==> ToIndex([x, y], known, false) == [] && ToRestamp([x, y], known, false) == [x, y]
  {
    assert [x, y][..1] == [x] && [x][..0] == [];
    assert Dedup([x]) == [x];
    assert Hashes([x]) == {x.hash};
  }

  /** Two documents of one source, the second one stale. */
  predicate OneSource(h: Hasher, opts: Options, before: Records, start: Time, d: Document, e: Document, source: string) {
    var x, y := FromDocument(h, d), FromDocument(h, e);
    && x.uid != y.uid && x.hash != y.hash
    && SourceOf(opts.sourceIdKey, d) == SourceOf(opts.sourceIdKey, e) == Text(source)
    && x.uid in before && y.uid in before && Stale(before[y.uid], start) && before[y.uid].group == Some(source)
  }

  lemma InOneBatch(h: Hasher, opts: Options, before: Records, start: Time, d: Document, e: Document, source: string)
    requires !opts.forceUpdate && OneSource(h, opts, before, start, d, e, source)
    ensures Tally(h, before, start, opts, [[d, e]]) == Tallied(Counts(0, 0, 2, 0), [])
  {
    var x, y := FromDocument(h, d), FromDocument(h, e);
    SmallBatch(x, y, before.Keys);
    assert HashList(h, [d, e]) == [x, y];
    TallyOneBatch(h, before, start, opts, [d, e]);
  }

  lemma FirstOfTwo(h: Hasher, opts: Options, before: Records, start: Time, d: Document, e: Document, source: string)
    requires opts.cleanup == Incremental && !opts.forceUpdate && OneSource(h, opts, before, start, d, e, source)
    ensures Tally(h, before, start, opts, [[d]]) == Tallied(Counts(0, 0, 1, 0), [])
    ensures FromDocument(h, e).uid !in KnownAfter(before, start, opts, Kept(h, [[d]]))
  {
    var x, y := FromDocument(h, d), FromDocument(h, e);
    SmallBatch(x, y, before.Keys);
    assert HashList(h, [d]) == [x];
    TallyOneBatch(h, before, start, opts, [d]);
    KeptOneBatch(h, [d]);
    SecondIsRemoved(before, start, opts, x, y.uid, source);
  }

  lemma KeptOneBatch(h: Hasher, batch: seq<Document>)
    ensures Kept(h, [batch]) == Dedup(HashList(h, batch))
  {
    KeptStep(h, [batch], 0);
    assert [batch][..0] == [] && [batch][..1] == [batch];
  }

  lemma SecondIsRemoved(before: Records, start: Time, opts: Options, x: Hashed, uid: Uid, source: string)
    requires opts.cleanup == Incremental && SourceOf(opts.sourceIdKey, x.doc) == Text(source)
    requires uid != x.uid && uid in before && Stale(before[uid], start) && before[uid].group == Some(source)
    ensures uid !in KnownAfter(before, start, opts, [x])
  {
    assert x in [x] && source in Groups(opts.sourceIdKey, [x]);
    assert uid !in Uids([x]);
  }

  lemma OneAdded(y: Hashed, x: Hashed, known: set<Uid>)
    requires x.hash != y.hash && y.uid !in known
    ensures Dedup([y]) == [y] && BatchTally([y], known, false) == Tallied(Counts(1, 0, 0, 0), [ToDocument(y)])
  {
    SmallBatch(y, x, known);
    assert CountsOf([y], known, false) == Counts(1, 0, 0, 0);
    assert Contents([y]) == [ToDocument(y)];
  }

  lemma OneMore(d: Stored)
    ensures Tallied(Counts(0, 0, 1, 0), []).Then(Tallied(Counts(1, 0, 0, 0), [d])) == Tallied(Counts(1, 0, 1, 0), [d])
  {
  }

  lemma InTwoBatches(h: Hasher, opts: Options, before: Records, start: Time, d: Document, e: Document, source: string)
    requires opts.cleanup == Incremental && !opts.forceUpdate && OneSource(h, opts, before, start, d, e, source)
    ensures Tally(h, before, start, opts, [[d], [e]]) == Tallied(Counts(1, 0, 1, 0), [ToDocument(FromDocument(h, e))])
  {
    var x, y := FromDocument(h, d), FromDocument(h, e);
    var known := KnownAfter(before, start, opts, Kept(h, [[d]]));
    FirstOfTwo(h, opts, before, start, d, e, source);
    OneAdded(y, x, known);
    OneMore(ToDocument(y));
    assert HashList(h, [e]) == [y];
    assert [[d], [e]][..1] == [[d]] && [[d], [e]][..2] == [[d], [e]];
    TallyStep(h, before, start, opts, [[d], [e]], 1, known);
  }

  /**
    The counters of an incremental run depend on the batch size: two documents of one source,
    both indexed before, are skipped in one batch; in two batches the cleanup after the first
    deletes the second document, which is then added again.
   */
  lemma CountersDependOnBatchSize(h: Hasher, opts: Options, before: Records, start: Time, d: Document, e: Document, source: string)
    requires opts.cleanup == Incremental && !opts.forceUpdate && OneSource(h, opts, before, start, d, e, source)
    ensures Tally(h, before, start, opts, Batches(2, [d, e])) == Tallied(Counts(0, 0, 2, 0), [])
    ensures Tally(h, before, start, opts, Batches(1, [d, e])) == Tallied(Counts(1, 0, 1, 0), [ToDocument(FromDocument(h, e))])
  {
    InOneBatch(h, opts, before, start, d, e, source);
    InTwoBatches(h, opts, before, start, d, e, source);
    TwoBatches(d, e);
  }

  lemma TwoBatches<T>(x: T, y: T)
    ensures Batches(2, [x, y]) == [[x, y]] && Batches(1, [x, y]) == [[x], [y]]
  {
    assert [x, y][..1] == [x] && [x, y][1..] == [y];
    assert Batches(1, [y]) == [[y]];
  }

  /** Without any cleanup a document that is given twice counts as skipped only if its copies come in different batches. */
  lemma CopyInNextBatch(h: Hasher, opts: Options, start: Time, d: Document)
    requires opts.cleanup != Incremental && !opts.forceUpdate
    ensures Tally(h, map[], start, opts, Batches(2, [d, d])) == Tallied(Counts(1, 0, 0, 0), [ToDocument(FromDocument(h, d))])
    ensures Tally(h, map[], start, opts, Batches(1, [d, d])) == Tallied(Counts(1, 0, 1, 0), [ToDocument(FromDocument(h, d))])
  {
    var x := FromDocument(h, d);
    TwoBatches(d, d);
    CopyTogether(h, opts, start, d);
    CopyApart(h, opts, start, d);
  }

  lemma SameTwice(x: Hashed)
    ensures Dedup([x]) == [x] && Dedup([x, x]) == [x]
  {
    assert [x, x][..1] == [x] && [x][..0] == [];
    assert Dedup([x]) == [x];
    assert x in [x];
  }

  lemma CopyTogether(h: Hasher, opts: Options, start: Time, d: Document)
    requires !opts.forceUpdate
    ensures var one := Tallied(Counts(1, 0, 0, 0), [ToDocument(FromDocument(h, d))]);
            Tally(h, map[], start, opts, [[d, d]]) == one && Tally(h, map[], start, opts, [[d]]) == one
  {
    var x := FromDocument(h, d);
    SameTwice(x);
    assert HashList(h, [d, d]) == [x, x] && HashList(h, [d]) == [x];
    var none: Records := map[];
    assert none.Keys == {};
    TallyOneBatch(h, none, start, opts, [d, d]);
    TallyOneBatch(h, none, start, opts, [d]);
    OneTallied(x, {});
  }

  lemma OneTallied(x: Hashed, known: set<Uid>)
    ensures BatchTally([x], known, false)
            == if x.uid in known then Tallied(Counts(0, 0, 1, 0), []) else Tallied(Counts(1, 0, 0, 0), [ToDocument(x)])
  {
    assert [x][..0] == [];
    assert ToIndex([x], known, false) == if x.uid in known then [] else [x];
    assert ToRestamp([x], known, false) == if x.uid in known then [x] else [];
    assert Contents([x]) == [ToDocument(x)] && Contents([]) == [];
  }

  lemma CopyApart(h: Hasher, opts: Options, start: Time, d: Document)
    requires opts.cleanup != Incremental && !opts.forceUpdate
    ensures Tally(h, map[], start, opts, [[d], [d]]) == Tallied(Counts(1, 0, 1, 0), [ToDocument(FromDocument(h, d))])
  {
    var x := FromDocument(h, d);
    var known := KnownAfter(map[], start, opts, Kept(h, [[d]]));
    SameTwice(x);
    assert HashList(h, [d]) == [x];
    KeptOneBatch(h, [d]);
    assert x in [x] && x.uid in known;
    CopyTogether(h, opts, start, d);
    assert [[d], [d]][..1] == [[d]] && [[d], [d]][..2] == [[d], [d]];
    TallyStep(h, map[], start, opts, [[d], [d]], 1, known);
    OneTallied(x, known);
    OneSkippedMore(ToDocument(x));
  }

  lemma OneSkippedMore(d: Stored)
    ensures Tallied(Counts(1, 0, 0, 0), [d]).Then(Tallied(Counts(0, 0, 1, 0), [])) == Tallied(Counts(1, 0, 1, 0), [d])
  {
    assert [d] + [] == [d];
  }

  // ---------- documents under one uid ----------

  /** Two new documents under one uid in one batch count twice and make one key. */
  lemma SharedUid(h: Hasher, opts: Options, before: Records, start: Time, d: Document, e: Document)
    requires !opts.forceUpdate && HashOf(h, d) != HashOf(h, e) && d.uid == e.uid && d.uid != "" && d.uid !in before
    ensures Tally(h, before, start, opts, [[d, e]]).counts == Counts(2, 0, 0, 0)
    ensures Uids(Kept(h, [[d, e]])) == {d.uid} && SurplusOf(h, before, start, opts, [[d, e]]) == 1
  {
    var x, y := FromDocument(h, d), FromDocument(h, e);
    assert HashList(h, [d, e]) == [x, y];
    NewPair(x, y, before.Keys);
    TallyOneBatch(h, before, start, opts, [d, e]);
    KeptOneBatch(h, [d, e]);
    KnownAtFirst(before, start, opts);
    assert [[d, e]][..0] == [] && [[d, e]][..1] == [[d, e]];
    SurplusStep(h, before, start, opts, [[d, e]], 0, before.Keys);
    assert Uids([x, y]) == {d.uid};
  }

  lemma NewPair(x: Hashed, y: Hashed, known: set<Uid>)
    requires x.hash != y.hash && x.uid !in known && y.uid !in known
    ensures Dedup([x, y]) == [x, y] && ToIndex([x, y], known, false) == [x, y] && ToRestamp([x, y], known, false) == []
  {
    assert [x, y][..1] == [x] && [x][..0] == [];
    assert Dedup([x]) == [x] && Hashes([x]) == {x.hash};
    assert ToIndex([x], known, false) == [x] && ToRestamp([x], known, false) == [];
  }
}
