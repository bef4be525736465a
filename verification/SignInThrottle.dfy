/**
  The sign-in throttle of packages/server/src/identity/owner.ts: failure counters per client
  address and per email, in fixed windows that start with the first failure.
 */
module SignInThrottle {

  const WINDOW_MS := 15 * 60_000
  const MAX_FAILURES := 10
  const CAPACITY := 10_000

  type Key = string
  type Time = nat

  datatype Entry = Entry(count: nat, since: Time)
  type Table = map<Key, Entry>

  /** The two keys of an attempt; the prefixes keep them apart. */
  datatype Attempt = Attempt(clientKey: string, email: string) {
    function Ip(): Key { "ip:" + clientKey }
    function Email(): Key { "email:" + email }

    predicate Uses(k: Key) {
      k == Ip() || k == Email()
    }
  }

  predicate Expired(e: Entry, now: Time) {
    now - e.since > WINDOW_MS
  }

  predicate TooMany(t: Table, k: Key, now: Time) {
    k in t && !Expired(t[k], now) && t[k].count >= MAX_FAILURES
  }

  function Checked(t: Table, k: Key, now: Time): Table {
    if k in t && Expired(t[k], now) then t - {k} else t
  }

  function Recorded(t: Table, k: Key, now: Time): Table {
    var t' := if k !in t || Expired(t[k], now) then t[k := Entry(1, now)] else t[k := t[k].(count := t[k].count + 1)];
    if |t'| > CAPACITY then map[] else t'
  }

  /** `keys.some(tooManyFailures)` stops at the first locked key. */
  predicate Blocked(t: Table, a: Attempt, now: Time) {
    TooMany(t, a.Ip(), now) || TooMany(Checked(t, a.Ip(), now), a.Email(), now)
  }

  function AfterCheck(t: Table, a: Attempt, now: Time): Table {
    if TooMany(t, a.Ip(), now) then Checked(t, a.Ip(), now)
    else Checked(Checked(t, a.Ip(), now), a.Email(), now)
  }

  function AfterFailure(t: Table, a: Attempt, now: Time): Table {
    Recorded(Recorded(t, a.Ip(), now), a.Email(), now)
  }

  // ---------- the module state and its methods ----------

  class Throttle {
    var failures: Table

    constructor ()
      ensures failures == map[]
    {
      failures := map[];
    }

    method TooManyFailures(key: Key, now: Time) returns (locked: bool)
      modifies this
      ensures locked == TooMany(old(failures), key, now)
      ensures failures == Checked(old(failures), key, now)
    {
      if key !in failures { return false; }
      var entry := failures[key];
      if now - entry.since > WINDOW_MS {
        failures := failures - {key};
        return false;
      }
      return entry.count >= MAX_FAILURES;
    }

    method RecordFailure(key: Key, now: Time)
      modifies this
      ensures failures == Recorded(old(failures), key, now)
    {
      if key !in failures || now - failures[key].since > WINDOW_MS {
        failures := failures[key := Entry(1, now)];
      } else {
        failures := failures[key := failures[key].(count := failures[key].count + 1)];
      }
      if |failures| > CAPACITY {
        failures := map[];
      }
    }

    /** The first step of `checkCredentials`. */
    method Check(a: Attempt, now: Time) returns (blocked: bool)
      modifies this
      ensures blocked == Blocked(old(failures), a, now)
      ensures failures == AfterCheck(old(failures), a, now)
    {
      blocked := TooManyFailures(a.Ip(), now);
      if !blocked {
        blocked := TooManyFailures(a.Email(), now);
      }
    }

    /** `fail`, after the password check. */
    method Fail(a: Attempt, now: Time)
      modifies this
      ensures failures == AfterFailure(old(failures), a, now)
    {
      RecordFailure(a.Ip(), now);
      RecordFailure(a.Email(), now);
    }

    method Succeed(a: Attempt)
      modifies this
      ensures failures == old(failures) - {a.Ip(), a.Email()}
    {
      failures := failures - {a.Ip()};
      failures := failures - {a.Email()};
    }
  }

  // ---------- concurrent attempts ----------

  /** Attempts that passed the check and wait for the password comparison. */
  datatype State = State(failures: Table, inFlight: seq<Attempt>)

  /** `Arrive` is the check; the others end the n-th attempt in flight. */
  datatype Event =
    | Arrive(a: Attempt, now: Time)
    | Failed(n: nat, at: Time)
    | Succeeded(n: nat)
    | NotSetUp(n: nat)

  function Without(s: seq<Attempt>, n: nat): seq<Attempt>
    requires n < |s|
  {
    s[..n] + s[n + 1..]
  }

  predicate Enabled(s: State, e: Event) {
    e.Arrive? || e.n < |s.inFlight|
  }

  function Step(s: State, e: Event): State
    requires Enabled(s, e)
  {
    match e
    case Arrive(a, now) =>
      State(AfterCheck(s.failures, a, now), if Blocked(s.failures, a, now) then s.inFlight else s.inFlight + [a])
    case Failed(n, at) => State(AfterFailure(s.failures, s.inFlight[n], at), Without(s.inFlight, n))
    case Succeeded(n) =>
      State(s.failures - {s.inFlight[n].Ip(), s.inFlight[n].Email()}, Without(s.inFlight, n))
    case NotSetUp(n) => s.(inFlight := Without(s.inFlight, n))
  }

  /** A run from `s` in which never more than `limit` attempts are in flight. */
  ghost predicate Reaches(s: State, es: seq<Event>, t: State, limit: nat)
    decreases |es|
  {
    && |s.inFlight| <= limit
    && if es == [] then t == s else Enabled(s, es[0]) && Reaches(Step(s, es[0]), es[1..], t, limit)
  }

  function Count(t: Table, k: Key): nat {
    if k in t then t[k].count else 0
  }

  function InFlight(s: seq<Attempt>, k: Key): nat {
    if s == [] then 0 else (if s[0].Uses(k) then 1 else 0) + InFlight(s[1..], k)
  }

  /** Recorded failures and attempts that may still fail, together. */
  ghost predicate WithinBudget(s: State, limit: nat) {
    forall k: Key :: Count(s.failures, k) + InFlight(s.inFlight, k) <= MAX_FAILURES - 1 + limit
  }

  lemma {:induction false} InFlightAtMostAll(s: seq<Attempt>, k: Key)
    ensures InFlight(s, k) <= |s|
  {
    if s != [] { InFlightAtMostAll(s[1..], k); }
  }

  lemma {:induction false} InFlightConcat(s: seq<Attempt>, t: seq<Attempt>, k: Key)
    ensures InFlight(s + t, k) == InFlight(s, k) + InFlight(t, k)
  {
    if s == [] {
      assert s + t == t;
    } else {
      assert (s + t)[1..] == s[1..] + t;
      InFlightConcat(s[1..], t, k);
    }
  }

  lemma InFlightWithout(s: seq<Attempt>, n: nat, k: Key)
    requires n < |s|
    ensures InFlight(s, k) == InFlight(Without(s, n), k) + if s[n].Uses(k) then 1 else 0
  {
    assert s == s[..n] + ([s[n]] + s[n + 1..]);
    InFlightConcat(s[..n], [s[n]] + s[n + 1..], k);
    InFlightConcat([s[n]], s[n + 1..], k);
    InFlightConcat(s[..n], s[n + 1..], k);
    assert InFlight([s[n]], k) == (if s[n].Uses(k) then 1 else 0) + InFlight([s[n]][1..], k);
  }

  lemma KeysDiffer(a: Attempt)
    ensures a.Ip() != a.Email()
  {
    assert a.Ip()[0] == 'i' && a.Email()[0] == 'e';
  }

  /** A check leaves no counter higher, and an admitted attempt finds both of its counters below the maximum. */
  lemma CheckCounts(t: Table, a: Attempt, now: Time, k: Key)
    ensures Count(AfterCheck(t, a, now), k) <= Count(t, k)
    ensures !Blocked(t, a, now) && a.Uses(k) ==> Count(AfterCheck(t, a, now), k) < MAX_FAILURES
  {
    KeysDiffer(a);
  }

  lemma RecordCounts(t: Table, k: Key, now: Time, other: Key)
    ensures Count(Recorded(t, k, now), k) <= Count(t, k) + 1
    ensures Count(Recorded(t, k, now), k) == 1 || Count(Recorded(t, k, now), k) == 0 || Count(Recorded(t, k, now), k) == Count(t, k) + 1
    ensures other != k ==> Count(Recorded(t, k, now), other) <= Count(t, other)
  {
  }

  /** A failure raises the counters of its two keys by at most one and no other. */
  lemma FailureCounts(t: Table, a: Attempt, now: Time, k: Key)
    ensures Count(AfterFailure(t, a, now), k) <= Count(t, k) + if a.Uses(k) then 1 else 0
  {
    KeysDiffer(a);
    var mid := Recorded(t, a.Ip(), now);
    RecordCounts(t, a.Ip(), now, k);
    RecordCounts(mid, a.Email(), now, k);
  }

  lemma StepKeepsBudget(s: State, e: Event, limit: nat)
    requires Enabled(s, e) && WithinBudget(s, limit) && |Step(s, e).inFlight| <= limit
    ensures WithinBudget(Step(s, e), limit)
  {
    var t := Step(s, e);
    forall k: Key ensures Count(t.failures, k) + InFlight(t.inFlight, k) <= MAX_FAILURES - 1 + limit {
      match e
      case Arrive(a, now) =>
        CheckCounts(s.failures, a, now, k);
        InFlightAtMostAll(t.inFlight, k);
        InFlightConcat(s.inFlight, [a], k);
        assert InFlight([a], k) == (if a.Uses(k) then 1 else 0) + InFlight([a][1..], k);
      case Failed(n, at) =>
        FailureCounts(s.failures, s.inFlight[n], at, k);
        InFlightWithout(s.inFlight, n, k);
      case Succeeded(n) => InFlightWithout(s.inFlight, n, k);
      case NotSetUp(n) => InFlightWithout(s.inFlight, n, k);
    }
  }

  /**
    However attempts overlap, through successes, expiry and clearing: with at most `limit` of
    them in flight, no key exceeds its maximum by `limit` or more.
   */
  lemma {:induction false} ConcurrentBudget(s: State, es: seq<Event>, t: State, limit: nat)
    requires WithinBudget(s, limit) && Reaches(s, es, t, limit)
    ensures WithinBudget(t, limit)
    ensures forall k | k in t.failures :: t.failures[k].count <= MAX_FAILURES - 1 + limit
    decreases |es|
  {
    if es != [] {
      StepKeepsBudget(s, es[0], limit);
      ConcurrentBudget(Step(s, es[0]), es[1..], t, limit);
    } else {
      forall k | k in t.failures ensures t.failures[k].count <= MAX_FAILURES - 1 + limit {
        assert Count(t.failures, k) + InFlight(t.inFlight, k) <= MAX_FAILURES - 1 + limit;
      }
    }
  }

  /** So from the empty table on, in every reachable state. */
  lemma BudgetFromStart(es: seq<Event>, t: State, limit: nat)
    requires Reaches(State(map[], []), es, t, limit)
    ensures forall k | k in t.failures :: t.failures[k].count + InFlight(t.inFlight, k) <= MAX_FAILURES - 1 + limit
  {
    ConcurrentBudget(State(map[], []), es, t, limit);
    forall k | k in t.failures ensures t.failures[k].count + InFlight(t.inFlight, k) <= MAX_FAILURES - 1 + limit {
      assert Count(t.failures, k) + InFlight(t.inFlight, k) <= MAX_FAILURES - 1 + limit;
    }
  }
}
