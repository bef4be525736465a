/**
  The rate-limited chunker of packages/components/src/textToSpeech.ts. Stream handlers and a
  consumer loop share `buffer` and `isEnded`; every `await` of the consumer lets any number of
  handlers run before it resumes.
 */
module AudioChunker {

  type Byte = b: nat | b < 256
  type Bytes = seq<Byte>

  datatype Consumer = Running | Finished | Stopped

  /** The promise keeps its first settlement. */
  datatype Promise = Pending | Resolved | Rejected

  datatype State = State(
    buffer: Bytes, isEnded: bool, aborted: bool,
    emitted: seq<Bytes>, onEndCalls: nat, promise: Promise, consumer: Consumer)

  /** What can happen between two awaits; `Tick` resumes the consumer. */
  datatype Event = Data(chunk: Bytes) | End | Failure | Abort | Tick

  function Init(aborted: bool): State {
    State([], false, aborted, [], 0, Pending, Running)
  }

  function Settle(p: Promise, to: Promise): Promise {
    if p.Pending? then to else p
  }

  /** What the consumer does from one resumption to its next await or its end. */
  function Resume(s: State, size: nat): State {
    if s.isEnded && s.buffer == [] then
      s.(onEndCalls := s.onEndCalls + 1, promise := Settle(s.promise, Resolved), consumer := Finished)
    else if s.aborted then s.(promise := Settle(s.promise, Rejected), consumer := Stopped)
    else if |s.buffer| >= size then s.(emitted := s.emitted + [s.buffer[..size]], buffer := s.buffer[size..])
    else if s.isEnded then
      s.(emitted := s.emitted + [s.buffer], buffer := [],
         onEndCalls := s.onEndCalls + 1, promise := Settle(s.promise, Resolved), consumer := Finished)
    else s
  }

  function Step(s: State, e: Event, size: nat): State {
    match e
    case Data(chunk) => if s.aborted then s else s.(buffer := s.buffer + chunk)
    case End => s.(isEnded := true)
    case Failure => s.(promise := Settle(s.promise, Rejected))
    case Abort => if s.aborted then s else s.(aborted := true, promise := Settle(s.promise, Rejected))
    case Tick => if s.consumer.Running? then Resume(s, size) else s
  }

  function Run(s: State, es: seq<Event>, size: nat): State {
    if es == [] then s else Step(Run(s, es[..|es| - 1], size), es[|es| - 1], size)
  }

  /** The shared state as the code keeps it. */
  class Chunker {
    const targetChunkSize: nat
    var buffer: Bytes
    var isEnded: bool
    var aborted: bool
    var emitted: seq<Bytes>
    var onEndCalls: nat
    var promise: Promise
    var consumer: Consumer

    function Abs(): State
      reads this
    {
      State(buffer, isEnded, aborted, emitted, onEndCalls, promise, consumer)
    }

    constructor (size: nat, aborted: bool)
      ensures Abs() == Init(aborted) && targetChunkSize == size
    {
      targetChunkSize := size;
      buffer, isEnded, this.aborted := [], false, aborted;
      emitted, onEndCalls, promise, consumer := [], 0, Pending, Running;
    }

    method OnData(chunk: Bytes)
      modifies this
      ensures Abs() == Step(old(Abs()), Data(chunk), targetChunkSize)
    {
      if !aborted {
        buffer := buffer + chunk;
      }
    }

    method OnEnd()
      modifies this
      ensures Abs() == Step(old(Abs()), End, targetChunkSize)
    {
      isEnded := true;
    }

    method OnError()
      modifies this
      ensures Abs() == Step(old(Abs()), Failure, targetChunkSize)
    {
      promise := Settle(promise, Rejected);
    }

    /** The signal fires once. */
    method OnAbort()
      modifies this
      ensures Abs() == Step(old(Abs()), Abort, targetChunkSize)
    {
      if !aborted {
        aborted := true;
        promise := Settle(promise, Rejected);
      }
    }

    /** `processChunks` from one resumption; a `return` is an await or the end. */
    method ProcessChunks()
      modifies this
      ensures Abs() == Step(old(Abs()), Tick, targetChunkSize)
    {
      if !consumer.Running? { return; }
      label start:
      while !isEnded || |buffer| > 0
        invariant Abs() == old(Abs()) ||
                  (isEnded && !aborted && buffer == [] && 0 < |old@start(buffer)| < targetChunkSize
                   && Abs() == old@start(Abs()).(emitted := old@start(emitted) + [old@start(buffer)], buffer := []))
        decreases |buffer|
      {
        if aborted {
          promise := Settle(promise, Rejected);
          consumer := Stopped;
          return;
        }
        if |buffer| >= targetChunkSize {
          var chunk := buffer[..targetChunkSize];
          buffer := buffer[targetChunkSize..];
          emitted := emitted + [chunk];
          return;
        } else if isEnded && |buffer| > 0 {
          emitted := emitted + [buffer];
          buffer := [];
        } else if !isEnded {
          return;
        } else {
          break;
        }
      }
      onEndCalls := onEndCalls + 1;
      promise := Settle(promise, Resolved);
      consumer := Finished;
    }
  }

  // ---------- conservation ----------

  function Flatten(cs: seq<Bytes>): Bytes {
    if cs == [] then [] else Flatten(cs[..|cs| - 1]) + cs[|cs| - 1]
  }

  lemma FlattenPush(cs: seq<Bytes>, c: Bytes)
    ensures Flatten(cs + [c]) == Flatten(cs) + c
  {
    assert (cs + [c])[..|cs|] == cs;
  }

  /** The bytes the data handler accepts in a run: those that arrive before an abort. */
  function Accepted(s: State, es: seq<Event>, size: nat): Bytes {
    if es == [] then []
    else
      var front, e := es[..|es| - 1], es[|es| - 1];
      Accepted(s, front, size) + if e.Data? && !Run(s, front, size).aborted then e.chunk else []
  }

  lemma ResumeConserves(s: State, size: nat)
    ensures var s' := Resume(s, size); Flatten(s'.emitted) + s'.buffer == Flatten(s.emitted) + s.buffer
  {
    if |s.buffer| >= size {
      FlattenPush(s.emitted, s.buffer[..size]);
      assert s.buffer == s.buffer[..size] + s.buffer[size..];
    } else {
      FlattenPush(s.emitted, s.buffer);
    }
  }

  lemma StepConserves(s: State, e: Event, size: nat)
    ensures var s' := Step(s, e, size);
            Flatten(s'.emitted) + s'.buffer == Flatten(s.emitted) + s.buffer + (if e.Data? && !s.aborted then e.chunk else [])
  {
    if e.Tick? {
      ResumeConserves(s, size);
    }
  }

  /** No byte is lost, repeated or reordered, under every schedule, with or without an abort. */
  lemma {:induction false} BytesConserved(aborted: bool, es: seq<Event>, size: nat)
    ensures var s := Run(Init(aborted), es, size);
            Flatten(s.emitted) + s.buffer == Accepted(Init(aborted), es, size)
  {
    if es != [] {
      BytesConserved(aborted, es[..|es| - 1], size);
      StepConserves(Run(Init(aborted), es[..|es| - 1], size), es[|es| - 1], size);
    }
  }

  // ---------- shape of the chunks ----------

  /** The input cut into pieces of `size` and at most one shorter, non-empty last piece. */
  function Cut(bs: Bytes, size: nat): seq<Bytes>
    requires size > 0
    decreases |bs|
  {
    if bs == [] then [] else if |bs| <= size then [bs] else [bs[..size]] + Cut(bs[size..], size)
  }

  predicate WellCut(cs: seq<Bytes>, size: nat) {
    && (forall i | 0 <= i < |cs| - 1 :: |cs[i]| == size)
    && (cs != [] ==> 0 < |cs[|cs| - 1]| <= size)
  }

  lemma {:induction false} FlattenHead(cs: seq<Bytes>)
    requires cs != []
    ensures Flatten(cs) == cs[0] + Flatten(cs[1..])
  {
    if |cs| == 1 {
      assert cs[..0] == [] && cs[1..] == [];
    } else {
      FlattenHead(cs[..|cs| - 1]);
      assert cs[1..][..|cs| - 2] == cs[..|cs| - 1][1..];
    }
  }

  /** There is only one way to cut. */
  lemma {:induction false} WellCutIsCut(cs: seq<Bytes>, size: nat)
    requires size > 0 && WellCut(cs, size)
    ensures cs == Cut(Flatten(cs), size)
  {
    if cs != [] {
      var bs := Flatten(cs);
      FlattenHead(cs);
      WellCutIsCut(cs[1..], size);
      if |cs| == 1 {
        assert bs == cs[0];
      } else {
        FlattenHead(cs[1..]);
        assert |cs[1]| > 0;
        assert bs[..size] == cs[0] && bs[size..] == Flatten(cs[1..]);
      }
    }
  }

  ghost predicate Shape(s: State, size: nat) {
    && (s.consumer.Finished? <==> s.onEndCalls == 1) && s.onEndCalls <= 1
    && WellCut(s.emitted, size)
    && (!s.consumer.Finished? ==> forall i | 0 <= i < |s.emitted| :: |s.emitted[i]| == size)
    && (s.consumer.Finished? ==> s.isEnded)
    && (s.promise.Resolved? ==> s.consumer.Finished?)
    && (s.consumer.Stopped? ==> s.aborted)
    && (s.aborted ==> !s.promise.Pending? || s.consumer.Running?)
  }

  lemma {:induction false} RunShape(aborted: bool, es: seq<Event>, size: nat)
    requires size > 0
    ensures Shape(Run(Init(aborted), es, size), size)
  {
    if es != [] {
      RunShape(aborted, es[..|es| - 1], size);
    }
  }

  predicate NoAbort(es: seq<Event>) {
    Abort !in es
  }

  /** A stream delivers nothing after its end. */
  predicate NoDataAfterEnd(es: seq<Event>) {
    forall i, j | 0 <= i < j < |es| :: es[i].End? ==> !es[j].Data?
  }

  function DataOf(es: seq<Event>): Bytes {
    if es == [] then [] else DataOf(es[..|es| - 1]) + if es[|es| - 1].Data? then es[|es| - 1].chunk else []
  }

  lemma {:induction false} WithoutAbort(es: seq<Event>, size: nat)
    requires NoAbort(es)
    ensures !Run(Init(false), es, size).aborted
    ensures Accepted(Init(false), es, size) == DataOf(es)
  {
    if es != [] {
      assert forall e | e in es[..|es| - 1] :: e in es;
      WithoutAbort(es[..|es| - 1], size);
    }
  }

  lemma {:induction false} NothingLeft(es: seq<Event>, size: nat)
    requires NoDataAfterEnd(es)
    ensures var s := Run(Init(false), es, size);
            && (s.consumer.Finished? ==> s.buffer == [])
            && (s.isEnded <==> exists i | 0 <= i < |es| :: es[i].End?)
            && (s.consumer.Finished? ==> s.isEnded)
  {
    if es != [] {
      var front, e := es[..|es| - 1], es[|es| - 1];
      NothingLeft(front, size);
      assert forall i | 0 <= i < |front| :: front[i] == es[i];
      var t := Run(Init(false), front, size);
      assert e.Data? ==> !t.isEnded;
    }
  }

  /**
    Schedule independence: however data, end and consumer turns interleave, a consumer that
    finishes without an abort has delivered the input cut into pieces, then called `onEnd` once.
   */
  lemma ScheduleIndependence(es: seq<Event>, size: nat)
    requires size > 0 && NoAbort(es) && NoDataAfterEnd(es)
    ensures var s := Run(Init(false), es, size);
            s.consumer.Finished? ==> s.emitted == Cut(DataOf(es), size) && s.onEndCalls == 1
  {
    var s := Run(Init(false), es, size);
    BytesConserved(false, es, size);
    WithoutAbort(es, size);
    RunShape(false, es, size);
    NothingLeft(es, size);
    WellCutIsCut(s.emitted, size);
    assert s.consumer.Finished? ==> Flatten(s.emitted) + s.buffer == Flatten(s.emitted);
  }

  /** Without an abort and a stream error the promise resolves exactly when the consumer finishes. */
  lemma {:induction false} CleanRunResolves(es: seq<Event>, size: nat)
    requires NoAbort(es) && Failure !in es
    ensures var s := Run(Init(false), es, size);
            !s.aborted && s.promise == (if s.consumer.Finished? then Resolved else Pending)
  {
    if es != [] {
      assert forall e | e in es[..|es| - 1] :: e in es;
      CleanRunResolves(es[..|es| - 1], size);
    }
  }

  /** Once the consumer has finished or stopped, nothing more is delivered and `onEnd` is not called again: it comes last. */
  lemma {:induction false} OverIsOver(s: State, es: seq<Event>, size: nat)
    requires !s.consumer.Running?
    ensures var t := Run(s, es, size);
            t.emitted == s.emitted && t.onEndCalls == s.onEndCalls && t.consumer == s.consumer
  {
    if es != [] {
      OverIsOver(s, es[..|es| - 1], size);
    }
  }

  // ---------- abort ----------

  /** No chunk follows an abort, and nothing more is accepted. */
  lemma {:induction false} AbortFreezes(s: State, es: seq<Event>, size: nat)
    requires s.aborted
    ensures var t := Run(s, es, size); t.aborted && t.emitted == s.emitted && t.buffer == s.buffer && Accepted(s, es, size) == []
  {
    if es != [] {
      AbortFreezes(s, es[..|es| - 1], size);
    }
  }

  /** After an abort `onEnd` still runs exactly when the stream had ended and everything was delivered. */
  lemma OnEndAfterAbort(s: State, size: nat)
    requires s.aborted && s.consumer.Running?
    ensures var t := Step(s, Tick, size);
            && (t.onEndCalls == s.onEndCalls + 1 <==> s.isEnded && s.buffer == [])
            && (t.consumer == if s.isEnded && s.buffer == [] then Finished else Stopped)
  {
  }

  /** The first settlement of the promise is the last. */
  lemma {:induction false} SettledOnce(s: State, es: seq<Event>, size: nat)
    requires !s.promise.Pending?
    ensures Run(s, es, size).promise == s.promise
  {
    if es != [] {
      SettledOnce(s, es[..|es| - 1], size);
    }
  }

  /** An abort or a stream error that finds the promise pending rejects it for good. */
  lemma RejectedForGood(s: State, e: Event, es: seq<Event>, size: nat)
    requires s.promise.Pending? && (e.Failure? || (e.Abort? && !s.aborted))
    ensures Run(Step(s, e, size), es, size).promise.Rejected?
  {
    SettledOnce(Step(s, e, size), es, size);
  }

  // ---------- termination ----------

  function Ticks(n: nat): seq<Event> {
    seq(n, i => Tick)
  }

  lemma {:induction false} FirstTick(s: State, n: nat, size: nat)
    requires n > 0
    ensures Run(s, Ticks(n), size) == Run(Step(s, Tick, size), Ticks(n - 1), size)
  {
    assert Ticks(n)[..n - 1] == Ticks(n - 1);
    if n == 1 {
      assert Ticks(1)[..0] == [] && Ticks(0) == [];
      assert Run(s, [], size) == s;
    } else {
      FirstTick(s, n - 1, size);
      assert Ticks(n - 1)[..n - 2] == Ticks(n - 2);
    }
  }

  /** How many full pieces the buffer still holds. */
  function Pieces(n: nat, size: nat): nat
    requires size > 0
  {
    if n < size then 0 else 1 + Pieces(n - size, size)
  }

  /** Once the stream has ended, the consumer needs one turn more than there are full pieces, and no fewer. */
  lemma {:induction false} Drains(s: State, n: nat, size: nat)
    requires size > 0 && s.isEnded && !s.aborted && s.consumer.Running?
    ensures Run(s, Ticks(n), size).consumer.Finished? <==> n > Pieces(|s.buffer|, size)
    decreases n
  {
    if n > 0 {
      FirstTick(s, n, size);
      var t := Step(s, Tick, size);
      if |s.buffer| >= size {
        Drains(t, n - 1, size);
      } else {
        TicksKeepFinished(t, n - 1, size);
      }
    } else {
      assert Ticks(0) == [];
    }
  }

  /** The turns of the consumer in a schedule. */
  function TicksIn(es: seq<Event>): nat {
    if es == [] then 0 else TicksIn(es[..|es| - 1]) + if es[|es| - 1].Tick? then 1 else 0
  }

  /** Whatever comes between the turns behind the end of a stream, each turn emits one piece until none is left. */
  lemma {:induction false} AfterTurns(s: State, es: seq<Event>, size: nat)
    requires size > 0 && s.isEnded && !s.aborted && s.consumer.Running?
    requires forall e | e in es :: !e.Data? && !e.Abort?
    ensures var t, n, pieces := Run(s, es, size), TicksIn(es), Pieces(|s.buffer|, size);
            && t.isEnded && !t.aborted
            && if n <= pieces then t.consumer.Running? && Pieces(|t.buffer|, size) == pieces - n else t.consumer.Finished?
  {
    if es != [] {
      var front, e := es[..|es| - 1], es[|es| - 1];
      assert forall x | x in front :: x in es;
      assert e in es;
      AfterTurns(s, front, size);
    }
  }

  lemma NextPiece(n: nat, size: nat)
    ensures (n + 1) * size == n * size + size
  {
  }

  /** The i-th piece of some bytes. */
  function PieceAt(bs: Bytes, i: nat, size: nat): Bytes
    requires i * size + size <= |bs|
  {
    bs[i * size..i * size + size]
  }

  lemma {:induction false} FewerFit(i: nat, n: nat, size: nat)
    requires i < n
    ensures i * size + size <= n * size
  {
    if i + 1 < n {
      FewerFit(i, n - 1, size);
    }
    NextPiece(n - 1, size);
  }

  /** A turn that finds a full piece in the buffer delivers it, whether or not the stream has ended. */
  lemma TurnDelivers(s: State, size: nat)
    requires size > 0 && s.consumer.Running? && !s.aborted && |s.buffer| >= size
    ensures Step(s, Tick, size) == s.(emitted := s.emitted + [s.buffer[..size]], buffer := s.buffer[size..])
  {
  }

  /** A turn that finds less waits for more, as long as the stream goes on. */
  lemma TurnWaits(s: State, size: nat)
    requires s.consumer.Running? && !s.aborted && !s.isEnded && |s.buffer| < size
    ensures Step(s, Tick, size) == s
  {
  }

  lemma PieceOfRest(bs: Bytes, n: nat, size: nat, more: Bytes)
    requires n * size + size <= |bs|
    ensures (bs[n * size..] + more)[..size] == PieceAt(bs, n, size)
    ensures (bs[n * size..] + more)[size..] == bs[(n + 1) * size..] + more
  {
    NextPiece(n, size);
  }

  /**
    Progress: whatever comes between the turns, data and the end of the stream included, `n` turns
    deliver the next `n` full pieces of the buffer, in order, as far as there are that many.
   */
  lemma {:induction false} EachTurnDelivers(s: State, es: seq<Event>, size: nat)
    requires size > 0 && s.consumer.Running? && !s.aborted && NoAbort(es) && TicksIn(es) * size <= |s.buffer|
    ensures var t, n := Run(s, es, size), TicksIn(es);
            && t.consumer.Running? && !t.aborted && t.onEndCalls == s.onEndCalls
            && t.buffer == s.buffer[n * size..] + DataOf(es)
            && |t.emitted| == |s.emitted| + n && t.emitted[..|s.emitted|] == s.emitted
            && forall i | 0 <= i < n :: i * size + size <= |s.buffer| && t.emitted[|s.emitted| + i] == PieceAt(s.buffer, i, size)
  {
    var n := TicksIn(es);
    forall i | 0 <= i < n ensures i * size + size <= |s.buffer| { FewerFit(i, n, size); }
    if es != [] {
      var front, e := es[..|es| - 1], es[|es| - 1];
      assert forall x | x in front :: x in es;
      assert e in es;
      if e.Tick? {
        NextPiece(n - 1, size);
        EachTurnDelivers(s, front, size);
        PieceOfRest(s.buffer, n - 1, size, DataOf(front));
        TurnDelivers(Run(s, front, size), size);
      } else {
        EachTurnDelivers(s, front, size);
      }
    }
  }

  lemma {:induction false} RunOn(s: State, a: seq<Event>, b: seq<Event>, size: nat)
    ensures Run(s, a + b, size) == Run(Run(s, a, size), b, size)
  {
    if b == [] {
      assert a + b == a;
    } else {
      RunOn(s, a, b[..|b| - 1], size);
      assert (a + b)[..|a + b| - 1] == a + b[..|b| - 1];
    }
  }

  /**
    On every schedule without abort and without data behind the end, cut anywhere behind the end:
    the consumer has finished exactly if it had at the cut, or has had more turns since than there
    were full pieces in the buffer.
   */
  lemma FinishesOnEverySchedule(front: seq<Event>, back: seq<Event>, size: nat)
    requires size > 0 && NoAbort(front + back) && NoDataAfterEnd(front + back) && End in front
    ensures var s := Run(Init(false), front, size);
            Run(Init(false), front + back, size).consumer.Finished?
            <==> s.consumer.Finished? || TicksIn(back) > Pieces(|s.buffer|, size)
  {
    var s, es := Run(Init(false), front, size), front + back;
    var k :| 0 <= k < |front| && front[k].End?;
    RunOn(Init(false), front, back, size);
    assert forall e | e in front :: e in es;
    forall e | e in back ensures !e.Data? && !e.Abort? {
      var i :| 0 <= i < |back| && back[i] == e;
      assert es[k].End? && es[|front| + i] == e && e in es;
    }
    forall i, j | 0 <= i < j < |front| && front[i].End? ensures !front[j].Data? { assert es[i] == front[i] && es[j] == front[j]; }
    NothingLeft(front, size);
    WithoutAbort(front, size);
    RunShape(false, front, size);
    if s.consumer.Running? {
      AfterTurns(s, back, size);
    } else {
      OverIsOver(s, back, size);
    }
  }

  lemma {:induction false} PiecesIsQuotient(n: nat, size: nat)
    requires size > 0
    ensures Pieces(n, size) * size <= n < (Pieces(n, size) + 1) * size
  {
    if n >= size {
      PiecesIsQuotient(n - size, size);
    }
  }

  /** With a target size of zero the consumer of an ended stream with bytes left never finishes. */
  lemma {:induction false} ZeroSizeNeverFinishes(s: State, n: nat)
    requires s.isEnded && !s.aborted && s.consumer.Running? && s.buffer != []
    ensures Run(s, Ticks(n), 0).consumer.Running?
    decreases n
  {
    if n > 0 {
      FirstTick(s, n, 0);
      ZeroSizeNeverFinishes(Step(s, Tick, 0), n - 1);
    } else {
      assert Ticks(0) == [];
    }
  }

  lemma {:induction false} TicksKeepFinished(s: State, n: nat, size: nat)
    requires s.consumer.Finished?
    ensures Run(s, Ticks(n), size) == s
  {
    if n > 0 {
      FirstTick(s, n, size);
      TicksKeepFinished(s, n - 1, size);
    } else {
      assert Ticks(0) == [];
    }
  }

  /** The consumer of a stream that never ends, failed or not, and never aborts polls forever. */
  lemma {:induction false} NeverEndedNeverFinishes(es: seq<Event>, size: nat)
    requires NoAbort(es) && End !in es
    ensures var s := Run(Init(false), es, size); s.consumer.Running? && !s.isEnded && !s.aborted
  {
    if es != [] {
      assert forall e | e in es[..|es| - 1] :: e in es;
      NeverEndedNeverFinishes(es[..|es| - 1], size);
    }
  }
}
