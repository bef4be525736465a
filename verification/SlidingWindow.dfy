/**
  What the fixed windows of the sign-in throttle say about any stretch of time, when attempts
  come one after the other, none succeeds and the table is never cleared.
 */
module SlidingWindow {
  import opened SignInThrottle
  import opened Common

  /** One sequential attempt: checked at `checkAt`, recorded as failed at `failAt`. */
  datatype Try = Try(a: Attempt, checkAt: Time, failAt: Time)

  /** The table, and for the key under study the times of its recorded failures. */
  datatype Log = Log(failures: Table, times: seq<Time>)

  function Next(s: Log, t: Try, k: Key): Log {
    var checked := AfterCheck(s.failures, t.a, t.checkAt);
    if Blocked(s.failures, t.a, t.checkAt) then s.(failures := checked)
    else Log(AfterFailure(checked, t.a, t.failAt), if t.a.Uses(k) then s.times + [t.failAt] else s.times)
  }

  /** A sequential try is an arrival and, if admitted, a failure in the concurrent system. */
  lemma NextIsTwoSteps(s: Log, t: Try, k: Key)
    ensures var arrived := Step(State(s.failures, []), Arrive(t.a, t.checkAt));
            if Blocked(s.failures, t.a, t.checkAt) then arrived == State(Next(s, t, k).failures, [])
            else Enabled(arrived, Failed(0, t.failAt)) && Step(arrived, Failed(0, t.failAt)) == State(Next(s, t, k).failures, [])
  {
    assert [] + [t.a] == [t.a];
  }

  function RunTries(tries: seq<Try>, k: Key): Log {
    if tries == [] then Log(map[], []) else Next(RunTries(tries[..|tries| - 1], k), tries[|tries| - 1], k)
  }

  /** The clock does not go back. */
  predicate Ordered(tries: seq<Try>) {
    && (forall i | 0 <= i < |tries| :: tries[i].checkAt <= tries[i].failAt)
    && (forall i, j | 0 <= i < j < |tries| :: tries[i].failAt <= tries[j].checkAt)
  }

  /** Recording a failure for both keys clears the table exactly if it cannot hold them. */
  predicate Fits(t: Table, a: Attempt) {
    |t.Keys + {a.Ip(), a.Email()}| <= CAPACITY
  }

  /** No recorded failure of these tries clears the table. */
  ghost predicate NeverCleared(tries: seq<Try>, k: Key) {
    forall n | 0 <= n < |tries| :: ClearsNothing(RunTries(tries[..n], k).failures, tries[n])
  }

  predicate ClearsNothing(t: Table, tr: Try) {
    Blocked(t, tr.a, tr.checkAt) || Fits(AfterCheck(t, tr.a, tr.checkAt), tr.a)
  }

  // ---------- windows ----------

  ghost predicate Sorted(ts: seq<Time>) {
    forall i, j | 0 <= i < j < |ts| :: ts[i] <= ts[j]
  }

  /**
    `starts` are the indices at which windows begin: each window holds at most MAX_FAILURES
    failures, and the next one begins more than WINDOW_MS after it.
   */
  ghost predicate Windows(ts: seq<Time>, starts: seq<nat>) {
    && (ts == [] <==> starts == [])
    && (starts != [] ==> starts[0] == 0 && starts[|starts| - 1] < |ts| <= starts[|starts| - 1] + MAX_FAILURES)
    && (forall i, j | 0 <= i < j < |starts| && j == i + 1 :: Follows(ts, starts[i], starts[j]))
  }

  /** The window that begins at `b` comes after the one that begins at `a`. */
  ghost predicate Follows(ts: seq<Time>, a: nat, b: nat) {
    a < b <= a + MAX_FAILURES && b < |ts| && ts[a] + WINDOW_MS < ts[b]
  }

  /** The window that contains the i-th failure. */
  lemma {:induction false} WindowOf(ts: seq<Time>, starts: seq<nat>, i: nat, last: nat) returns (j: nat)
    requires Windows(ts, starts) && i < |ts| && last < |starts|
    requires last == |starts| - 1 || (last + 1 < |starts| && i < starts[last + 1])
    ensures j < |starts| && starts[j] <= i
    ensures j + 1 < |starts| ==> i < starts[j + 1]
    decreases last
  {
    if starts[last] <= i {
      j := last;
    } else {
      j := WindowOf(ts, starts, i, last - 1);
    }
  }

  /** A window is followed by another one once there are MAX_FAILURES more failures. */
  lemma NotLast(ts: seq<Time>, starts: seq<nat>, j: nat)
    requires Windows(ts, starts) && j < |starts| && starts[j] + MAX_FAILURES < |ts|
    ensures j + 1 < |starts| && Follows(ts, starts[j], starts[j + 1])
  {
  }

  /** Failures that far apart in the list are further apart in time than a window. */
  lemma FarApart(ts: seq<Time>, starts: seq<nat>, first: nat, last: nat)
    requires Sorted(ts) && Windows(ts, starts)
    requires last < |ts| && last - first >= 2 * MAX_FAILURES - 1
    ensures ts[last] - ts[first] > WINDOW_MS
  {
    var j := WindowOf(ts, starts, first, |starts| - 1);
    NotLast(ts, starts, j);
    if first == starts[j] {
      assert ts[starts[j + 1]] <= ts[last];
    } else {
      NotLast(ts, starts, j + 1);
      assert ts[first] <= ts[starts[j + 1]] && ts[starts[j + 2]] <= ts[last];
    }
  }

  // ---------- the counters keep windows ----------

  /** How the entry of the key relates to the failures recorded for it. */
  ghost predicate EntryOk(t: Table, k: Key, ts: seq<Time>, starts: seq<nat>, now: Time) {
    && Windows(ts, starts)
    && Sorted(ts) && (ts != [] ==> ts[|ts| - 1] <= now)
    && if k in t
       then starts != [] && t[k].count == |ts| - starts[|starts| - 1] && t[k].since == ts[starts[|starts| - 1]]
       else starts != [] ==> ts[starts[|starts| - 1]] + WINDOW_MS < now
  }

  lemma EntryUnchanged(t: Table, t': Table, k: Key, ts: seq<Time>, starts: seq<nat>, now: Time, now': Time)
    requires EntryOk(t, k, ts, starts, now) && now <= now'
    requires k in t <==> k in t'
    requires k in t ==> t[k] == t'[k]
    ensures EntryOk(t', k, ts, starts, now')
  {
  }

  lemma EntryChecked(t: Table, other: Key, k: Key, ts: seq<Time>, starts: seq<nat>, now: Time, now': Time)
    requires EntryOk(t, k, ts, starts, now) && now <= now'
    ensures EntryOk(Checked(t, other, now'), k, ts, starts, now')
  {
  }

  /** A failure within the window counts for it ... */
  lemma SameWindow(ts: seq<Time>, starts: seq<nat>, at: Time)
    requires Windows(ts, starts) && Sorted(ts) && ts != [] && ts[|ts| - 1] <= at
    requires |ts| - starts[|starts| - 1] < MAX_FAILURES
    ensures Windows(ts + [at], starts) && Sorted(ts + [at])
  {
    var ts' := ts + [at];
    assert forall i | 0 <= i < |ts| :: ts'[i] == ts[i];
  }

  /** ... and the first failure after it begins the next one. */
  lemma NewWindow(ts: seq<Time>, starts: seq<nat>, at: Time)
    requires Windows(ts, starts) && Sorted(ts) && (ts != [] ==> ts[|ts| - 1] <= at)
    requires starts != [] ==> ts[starts[|starts| - 1]] + WINDOW_MS < at
    ensures Windows(ts + [at], starts + [|ts|]) && Sorted(ts + [at])
  {
    var ts', starts' := ts + [at], starts + [|ts|];
    forall i, j | 0 <= i < j < |starts'| && j == i + 1 ensures Follows(ts', starts'[i], starts'[j]) {
      if j < |starts| {
        assert Follows(ts, starts[i], starts[j]);
      }
    }
  }

  lemma EntryRecorded(t: Table, k: Key, ts: seq<Time>, starts: seq<nat>, now: Time, at: Time) returns (starts': seq<nat>)
    requires EntryOk(t, k, ts, starts, now) && now <= at && |t.Keys + {k}| <= CAPACITY
    requires k in t ==> t[k].count < MAX_FAILURES || Expired(t[k], at)
    ensures EntryOk(Recorded(t, k, at), k, ts + [at], starts', at)
  {
    RecordedKeys(t, k, at);
    if k in t && !Expired(t[k], at) {
      starts' := starts;
      SameWindow(ts, starts, at);
    } else {
      starts' := starts + [|ts|];
      NewWindow(ts, starts, at);
    }
  }

  lemma OtherRecorded(t: Table, other: Key, k: Key, at: Time)
    requires other != k && |t.Keys + {other}| <= CAPACITY
    ensures k in Recorded(t, other, at) <==> k in t
    ensures k in t ==> Recorded(t, other, at)[k] == t[k]
  {
    RecordedKeys(t, other, at);
  }

  /** A table that holds both keys is not cleared by either recording. */
  lemma FitsBoth(t: Table, a: Attempt, at: Time)
    requires Fits(t, a)
    ensures |t.Keys + {a.Ip()}| <= CAPACITY && |Recorded(t, a.Ip(), at).Keys + {a.Email()}| <= CAPACITY
  {
    var both := t.Keys + {a.Ip(), a.Email()};
    Smaller(t.Keys + {a.Ip()}, both);
    RecordedKeys(t, a.Ip(), at);
    assert Recorded(t, a.Ip(), at).Keys + {a.Email()} == both;
  }

  lemma Smaller(a: set<Key>, b: set<Key>)
    requires a <= b
    ensures |a| <= |b|
  {
    assert b == a + (b - a);
  }

  lemma NextKeepsEntry(s: Log, t: Try, k: Key, starts: seq<nat>, now: Time) returns (starts': seq<nat>)
    requires EntryOk(s.failures, k, s.times, starts, now) && now <= t.checkAt <= t.failAt && ClearsNothing(s.failures, t)
    ensures EntryOk(Next(s, t, k).failures, k, Next(s, t, k).times, starts', t.failAt)
  {
    KeysDiffer(t.a);
    var ip, email := t.a.Ip(), t.a.Email();
    var t1 := Checked(s.failures, ip, t.checkAt);
    EntryChecked(s.failures, ip, k, s.times, starts, now, t.checkAt);
    starts' := starts;
    var t2 := if TooMany(s.failures, ip, t.checkAt) then t1 else Checked(t1, email, t.checkAt);
    EntryChecked(t1, email, k, s.times, starts, t.checkAt, t.checkAt);
    if Blocked(s.failures, t.a, t.checkAt) {
      EntryUnchanged(t2, t2, k, s.times, starts, t.checkAt, t.failAt);
    } else {
      CheckCounts(s.failures, t.a, t.checkAt, k);
      FitsBoth(t2, t.a, t.failAt);
      var t3 := Recorded(t2, ip, t.failAt);
      if k == ip {
        starts' := EntryRecorded(t2, k, s.times, starts, t.checkAt, t.failAt);
        OtherRecorded(t3, email, k, t.failAt);
        EntryUnchanged(t3, Recorded(t3, email, t.failAt), k, s.times + [t.failAt], starts', t.failAt, t.failAt);
      } else {
        OtherRecorded(t2, ip, k, t.failAt);
        EntryUnchanged(t2, t3, k, s.times, starts, t.checkAt, t.failAt);
        if k == email {
          starts' := EntryRecorded(t3, k, s.times, starts, t.failAt, t.failAt);
        } else {
          OtherRecorded(t3, email, k, t.failAt);
          EntryUnchanged(t3, Recorded(t3, email, t.failAt), k, s.times, starts, t.failAt, t.failAt);
        }
      }
    }
  }

  lemma RecordedKeys(t: Table, k: Key, at: Time)
    requires |t.Keys + {k}| <= CAPACITY
    ensures Recorded(t, k, at).Keys == t.Keys + {k}
    ensures Recorded(t, k, at) == if k !in t || Expired(t[k], at) then t[k := Entry(1, at)] else t[k := t[k].(count := t[k].count + 1)]
  {
    assert t[k := Entry(1, at)].Keys == t.Keys + {k};
    assert k in t ==> t[k := t[k].(count := t[k].count + 1)].Keys == t.Keys + {k};
  }

  function EndOf(tries: seq<Try>): Time {
    if tries == [] then 0 else tries[|tries| - 1].failAt
  }

  lemma {:induction false} RunKeepsEntry(tries: seq<Try>, k: Key) returns (starts: seq<nat>)
    requires Ordered(tries) && NeverCleared(tries, k)
    ensures EntryOk(RunTries(tries, k).failures, k, RunTries(tries, k).times, starts, EndOf(tries))
  {
    if tries == [] {
      starts := [];
    } else {
      var front := tries[..|tries| - 1];
      forall n | 0 <= n < |front| ensures ClearsNothing(RunTries(front[..n], k).failures, front[n]) {
        assert front[..n] == tries[..n] && front[n] == tries[n];
      }
      assert tries[..|front|] == front;
      starts := RunKeepsEntry(front, k);
      starts := NextKeepsEntry(RunTries(front, k), tries[|tries| - 1], k, starts, EndOf(front));
    }
  }

  /** The sliding-window bound: any span of WINDOW_MS holds at most 2 * MAX_FAILURES - 1 recorded failures of a key. */
  lemma SlidingWindowBound(tries: seq<Try>, k: Key, first: nat, last: nat)
    requires Ordered(tries) && NeverCleared(tries, k)
    requires first <= last < |RunTries(tries, k).times|
    requires RunTries(tries, k).times[last] - RunTries(tries, k).times[first] <= WINDOW_MS
    ensures last - first + 1 <= 2 * MAX_FAILURES - 1
  {
    var starts := RunKeepsEntry(tries, k);
    if last - first >= 2 * MAX_FAILURES - 1 {
      FarApart(RunTries(tries, k).times, starts, first, last);
    }
  }

  // ---------- the bound is reached ----------

  /** One failure opens a window, the rest of it come at its very end, the next window fills at once. */
  function TightTime(n: nat): Time {
    if n == 0 then 0 else if n < MAX_FAILURES then WINDOW_MS else WINDOW_MS + 1
  }

  function TightTries(a: Attempt, n: nat): seq<Try> {
    seq(n, i requires 0 <= i < n => Try(a, TightTime(i), TightTime(i)))
  }

  function TightTimes(n: nat): seq<Time> {
    seq(n, i requires 0 <= i < n => TightTime(i))
  }

  function Both(a: Attempt, e: Entry): Table {
    map[a.Ip() := e, a.Email() := e]
  }

  function TightTable(a: Attempt, n: nat): Table {
    if n == 0 then map[]
    else if n <= MAX_FAILURES then Both(a, Entry(n, 0))
    else Both(a, Entry(n - MAX_FAILURES, WINDOW_MS + 1))
  }

  lemma FirstFailure(a: Attempt, now: Time)
    ensures !Blocked(map[], a, now) && AfterCheck(map[], a, now) == map[]
    ensures AfterFailure(map[], a, now) == Both(a, Entry(1, now))
  {
    KeysDiffer(a);
    assert Recorded(map[], a.Ip(), now) == map[a.Ip() := Entry(1, now)];
  }

  lemma ExpiredPair(a: Attempt, e: Entry, now: Time)
    requires Expired(e, now)
    ensures !Blocked(Both(a, e), a, now) && AfterCheck(Both(a, e), a, now) == map[]
  {
    assert Both(a, e) - {a.Ip()} - {a.Email()} == map[];
  }

  lemma NextFailure(a: Attempt, e: Entry, now: Time)
    requires !Expired(e, now) && e.count < MAX_FAILURES
    ensures !Blocked(Both(a, e), a, now) && AfterCheck(Both(a, e), a, now) == Both(a, e)
    ensures AfterFailure(Both(a, e), a, now) == Both(a, Entry(e.count + 1, e.since))
  {
    KeysDiffer(a);
    var t, e' := Both(a, e), Entry(e.count + 1, e.since);
    var t1 := t[a.Ip() := e'];
    assert t1.Keys == {a.Ip(), a.Email()} && t1[a.Email() := e'].Keys == {a.Ip(), a.Email()};
    assert Recorded(t, a.Ip(), now) == t1;
    assert Recorded(t1, a.Email(), now) == t1[a.Email() := e'];
    assert t1[a.Email() := e'] == Both(a, e');
  }

  lemma TightStep(a: Attempt, n: nat)
    requires n < 2 * MAX_FAILURES
    ensures !Blocked(TightTable(a, n), a, TightTime(n))
    ensures AfterFailure(AfterCheck(TightTable(a, n), a, TightTime(n)), a, TightTime(n)) == TightTable(a, n + 1)
  {
    if n == 0 {
      FirstFailure(a, 0);
    } else if n == MAX_FAILURES {
      ExpiredPair(a, Entry(n, 0), WINDOW_MS + 1);
      FirstFailure(a, WINDOW_MS + 1);
    } else if n < MAX_FAILURES {
      NextFailure(a, Entry(n, 0), WINDOW_MS);
    } else {
      NextFailure(a, Entry(n - MAX_FAILURES, WINDOW_MS + 1), WINDOW_MS + 1);
    }
  }

  lemma TightNext(a: Attempt, n: nat)
    requires n < 2 * MAX_FAILURES
    ensures Next(Log(TightTable(a, n), TightTimes(n)), Try(a, TightTime(n), TightTime(n)), a.Ip())
            == Log(TightTable(a, n + 1), TightTimes(n + 1))
  {
    TightStep(a, n);
    assert TightTimes(n + 1) == TightTimes(n) + [TightTime(n)];
  }

  lemma TightPrefix(a: Attempt, m: nat, n: nat)
    requires m <= n
    ensures TightTries(a, n)[..m] == TightTries(a, m)
    ensures m < n ==> TightTries(a, n)[m] == Try(a, TightTime(m), TightTime(m))
  {
  }

  lemma {:induction false} TightRun(a: Attempt, n: nat)
    requires n <= 2 * MAX_FAILURES
    ensures RunTries(TightTries(a, n), a.Ip()) == Log(TightTable(a, n), TightTimes(n))
  {
    if n == 0 {
      assert TightTries(a, 0) == [] && TightTimes(0) == [];
    } else {
      TightRun(a, n - 1);
      TightPrefix(a, n - 1, n);
      TightNext(a, n - 1);
    }
  }

  lemma TightFits(a: Attempt, n: nat, tr: Try)
    requires tr.a == a
    ensures ClearsNothing(TightTable(a, n), tr)
  {
    var t := AfterCheck(TightTable(a, n), a, tr.checkAt);
    assert TightTable(a, n).Keys <= {a.Ip(), a.Email()};
    assert t.Keys + {a.Ip(), a.Email()} == {a.Ip(), a.Email()};
  }

  lemma TightIsOrdered(a: Attempt, n: nat)
    ensures Ordered(TightTries(a, n))
  {
  }

  lemma TightNeverCleared(a: Attempt)
    ensures NeverCleared(TightTries(a, 2 * MAX_FAILURES), a.Ip())
  {
    forall n | 0 <= n < 2 * MAX_FAILURES
      ensures ClearsNothing(RunTries(TightTries(a, 2 * MAX_FAILURES)[..n], a.Ip()).failures, TightTries(a, 2 * MAX_FAILURES)[n])
    {
      TightPrefix(a, n, 2 * MAX_FAILURES);
      TightRun(a, n);
      TightFits(a, n, TightTries(a, 2 * MAX_FAILURES)[n]);
    }
  }

  /** 2 * MAX_FAILURES - 1 failures do fit into one millisecond: the bound cannot be lowered. */
  lemma BoundIsReached(a: Attempt)
    ensures var tries := TightTries(a, 2 * MAX_FAILURES);
            var times := RunTries(tries, a.Ip()).times;
            && Ordered(tries) && NeverCleared(tries, a.Ip())
            && |times| == 2 * MAX_FAILURES && times[2 * MAX_FAILURES - 1] == times[1] + 1
  {
    TightIsOrdered(a, 2 * MAX_FAILURES);
    TightNeverCleared(a);
    TightRun(a, 2 * MAX_FAILURES);
  }

  // ---------- a locked key ----------

  /** A step of overlapping attempts, not after `end`, that neither clears the table nor signs in with the key. */
  predicate Leaves(s: State, e: Event, k: Key, end: Time) {
    && Enabled(s, e)
    && match e
       case Arrive(_, now) => now <= end
       case Failed(n, at) => at <= end && Fits(s.failures, s.inFlight[n])
       case Succeeded(n) => !s.inFlight[n].Uses(k)
       case NotSetUp(_) => true
  }

  /** A run of such steps. */
  ghost predicate LockedRun(s: State, es: seq<Event>, t: State, k: Key, end: Time)
    decreases |es|
  {
    if es == [] then t == s else Leaves(s, es[0], k, end) && LockedRun(Step(s, es[0]), es[1..], t, k, end)
  }

  predicate Locked(s: State, k: Key) {
    k in s.failures && s.failures[k].count >= MAX_FAILURES
  }

  lemma RecordKeepsLock(t: Table, other: Key, k: Key, at: Time)
    requires k in t && t[k].count >= MAX_FAILURES && at <= t[k].since + WINDOW_MS && |t.Keys + {other}| <= CAPACITY
    ensures var t' := Recorded(t, other, at); k in t' && t'[k].count >= MAX_FAILURES && t'[k].since == t[k].since
  {
    RecordedKeys(t, other, at);
  }

  lemma StepKeepsLock(s: State, e: Event, k: Key)
    requires Locked(s, k) && Leaves(s, e, k, s.failures[k].since + WINDOW_MS)
    ensures Locked(Step(s, e), k) && Step(s, e).failures[k].since == s.failures[k].since
  {
    if e.Failed? {
      var a := s.inFlight[e.n];
      FitsBoth(s.failures, a, e.at);
      RecordKeepsLock(s.failures, a.Ip(), k, e.at);
      RecordKeepsLock(Recorded(s.failures, a.Ip(), e.at), a.Email(), k, e.at);
    }
  }

  /**
    A locked key stays locked while its window lasts, through checks, through failures of attempts
    still in flight, with the key or without, and through sign-ins with other keys; it opens as
    soon as the window is over. Until then every attempt with the key is refused.
   */
  lemma {:induction false} LockedUntilWindowEnds(s: State, es: seq<Event>, t: State, k: Key, now: Time)
    requires Locked(s, k) && LockedRun(s, es, t, k, s.failures[k].since + WINDOW_MS)
    ensures Locked(t, k) && t.failures[k].since == s.failures[k].since
    ensures TooMany(t.failures, k, now) <==> now <= s.failures[k].since + WINDOW_MS
    ensures forall a: Attempt | a.Uses(k) && now <= s.failures[k].since + WINDOW_MS :: Blocked(t.failures, a, now)
    decreases |es|
  {
    if es != [] {
      StepKeepsLock(s, es[0], k);
      LockedUntilWindowEnds(Step(s, es[0]), es[1..], t, k, now);
    } else {
      forall a: Attempt | a.Uses(k) && now <= s.failures[k].since + WINDOW_MS ensures Blocked(t.failures, a, now) {
        KeysDiffer(a);
      }
    }
  }
}
