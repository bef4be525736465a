/**
  The sign-in throttle in terms of clients and emails: which attempts share a counter, when an
  attempt is refused, and what failures of others can and cannot do to it.
 */
module ThrottleClients {
  import opened SignInThrottle
  import SlidingWindow

  // ---------- which attempts share a counter ----------

  lemma SamePrefix(p: string, a: string, b: string)
    ensures p + a == p + b <==> a == b
  {
    assert (p + a)[|p|..] == a && (p + b)[|p|..] == b;
  }

  /** Attempts share the counter of the address exactly if the client is the same, that of the email exactly if the email is; the two kinds never mix. */
  lemma KeysTell(a: Attempt, b: Attempt)
    ensures a.Ip() == b.Ip() <==> a.clientKey == b.clientKey
    ensures a.Email() == b.Email() <==> a.email == b.email
    ensures a.Ip() != b.Email()
  {
    SamePrefix("ip:", a.clientKey, b.clientKey);
    SamePrefix("email:", a.email, b.email);
    assert a.Ip()[0] == 'i' && b.Email()[0] == 'e';
  }

  // ---------- what the table means ----------

  /** Ten failures or more in a window of fifteen minutes that has not ended. */
  predicate Locked(t: Table, k: Key, now: Time) {
    k in t && t[k].count >= 10 && now - t[k].since <= 900_000
  }

  /** An attempt is refused exactly if its client or its email is locked. */
  lemma LockMeans(t: Table, a: Attempt, now: Time)
    ensures Blocked(t, a, now) <==> Locked(t, "ip:" + a.clientKey, now) || Locked(t, "email:" + a.email, now)
  {
    KeysTell(a, a);
  }

  /** What a failure makes of an entry: one more in a window that has not ended, else the first in a new one. */
  function Bumped(t: Table, k: Key, now: Time): Entry {
    if k in t && now - t[k].since <= 900_000 then Entry(t[k].count + 1, t[k].since) else Entry(1, now)
  }

  /**
    A failure counts for its client and its email and for nobody else; when either would be entry
    number 10001, the table is cleared.
   */
  lemma FailureMeans(t: Table, a: Attempt, now: Time)
    ensures var ip, email := "ip:" + a.clientKey, "email:" + a.email;
            AfterFailure(t, a, now) ==
              if |t.Keys + {ip}| > 10_000 then map[email := Entry(1, now)]
              else if |t.Keys + {ip} + {email}| > 10_000 then map[]
              else t[ip := Bumped(t, ip, now)][email := Bumped(t, email, now)]
  {
    KeysTell(a, a);
    RecordedTwice(t, a.Ip(), a.Email(), now);
  }

  lemma RecordedTwice(t: Table, k: Key, l: Key, now: Time)
    requires k != l
    ensures Recorded(Recorded(t, k, now), l, now) ==
              if |t.Keys + {k}| > 10_000 then map[l := Entry(1, now)]
              else if |t.Keys + {k} + {l}| > 10_000 then map[]
              else t[k := Bumped(t, k, now)][l := Bumped(t, l, now)]
  {
    RecordedMeans(t, k, now);
    RecordedFirst(l, now);
    RecordedSecond(t, k, Bumped(t, k, now), l, now);
  }

  lemma RecordedSecond(t: Table, k: Key, e: Entry, l: Key, now: Time)
    requires k != l
    ensures Recorded(t[k := e], l, now) == if |t.Keys + {k} + {l}| > 10_000 then map[] else t[k := e][l := Bumped(t, l, now)]
  {
    assert t[k := e].Keys == t.Keys + {k};
    RecordedMeans(t[k := e], l, now);
  }

  lemma RecordedFirst(k: Key, now: Time)
    ensures Recorded(map[], k, now) == map[k := Entry(1, now)]
  {
    var none: Table := map[];
    RecordedMeans(none, k, now);
    assert none.Keys + {k} == {k};
  }

  lemma RecordedMeans(t: Table, k: Key, now: Time)
    ensures Recorded(t, k, now) == if |t.Keys + {k}| > 10_000 then map[] else t[k := Bumped(t, k, now)]
  {
    var t' := t[k := Bumped(t, k, now)];
    assert t'.Keys == t.Keys + {k} && |t'| == |t'.Keys|;
  }

  /** A check drops ended windows of its client and, unless the client is locked, of its email; it changes nothing else. */
  lemma CheckMeans(t: Table, a: Attempt, now: Time, k: Key)
    ensures var ended := k in t && now - t[k].since > 900_000;
            var looked := k == "ip:" + a.clientKey || (k == "email:" + a.email && !Locked(t, "ip:" + a.clientKey, now));
            && (k in AfterCheck(t, a, now) <==> k in t && !(ended && looked))
            && (k in AfterCheck(t, a, now) ==> AfterCheck(t, a, now)[k] == t[k])
  {
    KeysTell(a, a);
  }

  // ---------- failures of one client, and for one email, in a run ----------

  function ClientFailures(s: State, es: seq<Event>, clientKey: string): nat
    decreases |es|
  {
    if es == [] || !Enabled(s, es[0]) then 0
    else (if es[0].Failed? && s.inFlight[es[0].n].clientKey == clientKey then 1 else 0)
         + ClientFailures(Step(s, es[0]), es[1..], clientKey)
  }

  function EmailFailures(s: State, es: seq<Event>, email: string): nat
    decreases |es|
  {
    if es == [] || !Enabled(s, es[0]) then 0
    else (if es[0].Failed? && s.inFlight[es[0].n].email == email then 1 else 0)
         + EmailFailures(Step(s, es[0]), es[1..], email)
  }

  lemma StepCounts(s: State, e: Event, a: Attempt)
    requires Enabled(s, e)
    ensures Count(Step(s, e).failures, "ip:" + a.clientKey)
            <= Count(s.failures, "ip:" + a.clientKey) + if e.Failed? && s.inFlight[e.n].clientKey == a.clientKey then 1 else 0
    ensures Count(Step(s, e).failures, "email:" + a.email)
            <= Count(s.failures, "email:" + a.email) + if e.Failed? && s.inFlight[e.n].email == a.email then 1 else 0
  {
    match e
    case Arrive(b, now) =>
      CheckCounts(s.failures, b, now, a.Ip());
      CheckCounts(s.failures, b, now, a.Email());
    case Failed(n, at) =>
      var b := s.inFlight[n];
      KeysTell(a, b);
      KeysTell(b, a);
      FailureCounts(s.failures, b, at, a.Ip());
      FailureCounts(s.failures, b, at, a.Email());
    case Succeeded(n) =>
    case NotSetUp(n) =>
  }

  /** No counter is higher than the failures recorded of its client or email. */
  lemma {:induction false} CountersAreFailures(s: State, es: seq<Event>, t: State, limit: nat, a: Attempt)
    requires Reaches(s, es, t, limit)
    ensures Count(t.failures, "ip:" + a.clientKey) <= Count(s.failures, "ip:" + a.clientKey) + ClientFailures(s, es, a.clientKey)
    ensures Count(t.failures, "email:" + a.email) <= Count(s.failures, "email:" + a.email) + EmailFailures(s, es, a.email)
    decreases |es|
  {
    if es != [] {
      StepCounts(s, es[0], a);
      CountersAreFailures(Step(s, es[0]), es[1..], t, limit, a);
    }
  }

  /**
    Others cannot lock an attempt out: in every run from the empty table, however attempts
    overlap, one is admitted while fewer than ten failures were recorded of its own client and
    fewer than ten for its own email.
   */
  lemma AdmittedUnlessOwnFailures(es: seq<Event>, t: State, limit: nat, a: Attempt, now: Time)
    requires Reaches(State(map[], []), es, t, limit)
    requires ClientFailures(State(map[], []), es, a.clientKey) < 10 && EmailFailures(State(map[], []), es, a.email) < 10
    ensures !Blocked(t.failures, a, now) && Step(t, Arrive(a, now)).inFlight == t.inFlight + [a]
  {
    CountersAreFailures(State(map[], []), es, t, limit, a);
    LockMeans(t.failures, a, now);
  }

  /**
    What ends an attempt in flight: a success forgets the failures of its client and its email
    and no others, so that the same client is admitted next, whatever happened before; without
    an owner account nothing is recorded. Nothing else in flight is touched.
   */
  lemma EndMeans(s: State, n: nat, a: Attempt, now: Time)
    requires n < |s.inFlight| && a == s.inFlight[n]
    ensures forall e | e == Failed(n, now) || e == Succeeded(n) || e == NotSetUp(n) ::
              Enabled(s, e) && Step(s, e).inFlight == s.inFlight[..n] + s.inFlight[n + 1..]
    ensures Step(s, Succeeded(n)).failures == s.failures - {"ip:" + a.clientKey, "email:" + a.email}
    ensures !Blocked(Step(s, Succeeded(n)).failures, a, now)
    ensures Step(s, NotSetUp(n)).failures == s.failures
  {
    LockMeans(Step(s, Succeeded(n)).failures, a, now);
  }

  /** Recording a failure loses no other counter exactly if the table can hold its entries. */
  lemma FitsExactly(t: Table, a: Attempt, now: Time)
    ensures SlidingWindow.Fits(t, a) <==> AfterFailure(t, a, now).Keys == t.Keys + {"ip:" + a.clientKey} + {"email:" + a.email}
  {
    var ip, email := "ip:" + a.clientKey, "email:" + a.email;
    FailureMeans(t, a, now);
    assert t.Keys + {a.Ip(), a.Email()} == t.Keys + {ip} + {email};
    assert |t.Keys + {ip} + {email}| >= |t.Keys + {ip}| by { Grows(t.Keys + {ip}, email); }
    if |t.Keys + {ip} + {email}| > 10_000 {
      var left := AfterFailure(t, a, now).Keys;
      assert left <= {email};
      SmallSet(left, email);
    }
  }

  lemma Grows(s: set<Key>, k: Key)
    ensures |s + {k}| >= |s|
  {
    if k in s { assert s + {k} == s; }
  }

  lemma SmallSet(s: set<Key>, k: Key)
    requires s <= {k}
    ensures |s| <= 1
  {
    if s != {} { assert s == {k}; }
  }
}
