/**
  Registration of the single owner in packages/server/src/identity/owner.ts: a flag held across
  awaits, around "no account yet?" and the transaction that creates one.
 */
module OwnerRegistration {
  import opened Common

  datatype Outcome = BadRequest | Conflict | Failure | Created

  /** Where one call of `registerOwner` stands; from `Counting` to `Leaving` it holds the flag. */
  datatype Call = Counting | Counted(n: nat) | Hashing | Saving | Leaving(result: Outcome) | Returned(outcome: Outcome) {
    predicate Guarded() {
      !Returned?
    }
  }

  /** `users` counts the rows of the user table; calls are numbered as they come. */
  datatype State = State(registering: bool, users: nat, calls: map<nat, Call>)

  /**
    One call advances up to its next await. `Enter` is a new call; `Query` and `Commit` are the
    database at work; a step that may fail carries `ok`.
   */
  datatype Event =
    | Enter(id: nat, valid: bool)
    | Query(id: nat, ok: bool)
    | Resume(id: nat)
    | Hash(id: nat, ok: bool)
    | Commit(id: nat, ok: bool)
    | Leave(id: nat)

  predicate Enabled(s: State, e: Event) {
    match e
    case Enter(id, _) => id !in s.calls
    case Query(id, _) => id in s.calls && s.calls[id].Counting?
    case Resume(id) => id in s.calls && s.calls[id].Counted?
    case Hash(id, _) => id in s.calls && s.calls[id].Hashing?
    case Commit(id, _) => id in s.calls && s.calls[id].Saving?
    case Leave(id) => id in s.calls && s.calls[id].Leaving?
  }

  function Step(s: State, e: Event): State
    requires Enabled(s, e)
  {
    match e
    case Enter(id, valid) =>
      if !valid then s.(calls := s.calls[id := Returned(BadRequest)])
      else if s.registering then s.(calls := s.calls[id := Returned(Conflict)])
      else s.(registering := true, calls := s.calls[id := Counting])
    case Query(id, ok) => s.(calls := s.calls[id := if ok then Counted(s.users) else Leaving(Failure)])
    case Resume(id) => s.(calls := s.calls[id := if s.calls[id].n > 0 then Leaving(Conflict) else Hashing])
    case Hash(id, ok) => s.(calls := s.calls[id := if ok then Saving else Leaving(Failure)])
    case Commit(id, ok) =>
      if ok then s.(users := s.users + 1, calls := s.calls[id := Leaving(Created)])
      else s.(calls := s.calls[id := Leaving(Failure)])
    case Leave(id) => s.(registering := false, calls := s.calls[id := Returned(s.calls[id].result)])
  }

  /** The states a process can be in, starting with `users` accounts and no call. */
  ghost predicate Reaches(s: State, es: seq<Event>, t: State)
    decreases |es|
  {
    if es == [] then t == s else Enabled(s, es[0]) && Reaches(Step(s, es[0]), es[1..], t)
  }

  function Start(users: nat): State {
    State(false, users, map[])
  }

  function Guarded(s: State): set<nat> {
    set id | id in s.calls && s.calls[id].Guarded()
  }

  function Winners(s: State): set<nat> {
    set id | id in s.calls && (s.calls[id] == Returned(Created) || s.calls[id] == Leaving(Created))
  }

  /**
    The flag is set exactly while one call is inside; a call that saw no account still sees
    none; and the accounts are the initial ones and those of the calls that succeeded.
   */
  ghost predicate Inv(s: State, initial: nat) {
    Exclusive(s) && Consistent(s, initial)
  }

  ghost predicate Exclusive(s: State) {
    && (!s.registering ==> Guarded(s) == {})
    && (s.registering ==> exists id :: Guarded(s) == {id})
  }

  ghost predicate Consistent(s: State, initial: nat) {
    && s.users == initial + |Winners(s)|
    && (forall id | id in s.calls && s.calls[id].Counted? :: s.calls[id].n == s.users)
    && (forall id | id in s.calls && (s.calls[id].Hashing? || s.calls[id].Saving?) :: s.users == 0)
    && (|Winners(s)| > 0 ==> s.users == 1)
  }

  lemma EnterInv(s: State, id: nat, valid: bool, initial: nat)
    requires Inv(s, initial) && id !in s.calls
    ensures Inv(Step(s, Enter(id, valid)), initial)
  {
    var t := Step(s, Enter(id, valid));
    assert Winners(t) == Winners(s);
    assert Guarded(t) == if valid && !s.registering then {id} else Guarded(s);
  }

  /** A call inside the guarded section is alone there. */
  lemma Alone(s: State, id: nat, initial: nat)
    requires Inv(s, initial) && id in s.calls && s.calls[id].Guarded()
    ensures s.registering && Guarded(s) == {id}
    ensures forall other | other in s.calls && other != id :: s.calls[other].Returned?
  {
    assert id in Guarded(s);
    forall other | other in s.calls && other != id ensures s.calls[other].Returned? {
      assert other !in Guarded(s);
    }
  }

  lemma WinnersAfter(s: State, e: Event, initial: nat)
    requires Inv(s, initial) && Enabled(s, e) && !e.Enter?
    ensures Winners(Step(s, e)) == Winners(s) + if e.Commit? && e.ok then {e.id} else {}
    ensures e.id in Winners(s) ==> e.Leave?
  {
  }

  lemma InsideInv(s: State, e: Event, initial: nat)
    requires Inv(s, initial) && Enabled(s, e) && !e.Enter?
    ensures Inv(Step(s, e), initial)
  {
    var t, id := Step(s, e), e.id;
    Alone(s, id, initial);
    WinnersAfter(s, e, initial);
    assert Exclusive(t) by {
      assert Guarded(t) == if e.Leave? then {} else {id};
    }
  }

  lemma StepInv(s: State, e: Event, initial: nat)
    requires Inv(s, initial) && Enabled(s, e)
    ensures Inv(Step(s, e), initial)
  {
    if e.Enter? {
      EnterInv(s, e.id, e.valid, initial);
    } else {
      InsideInv(s, e, initial);
    }
  }

  lemma {:induction false} RunInv(s: State, es: seq<Event>, t: State, initial: nat)
    requires Inv(s, initial) && Reaches(s, es, t)
    ensures Inv(t, initial)
    decreases |es|
  {
    if es != [] {
      StepInv(s, es[0], initial);
      RunInv(Step(s, es[0]), es[1..], t, initial);
    }
  }

  // ---------- the function with its awaits ----------

  lemma {:induction false} Extended(s: State, es: seq<Event>, t: State, e: Event)
    requires Reaches(s, es, t) && Enabled(t, e)
    ensures Reaches(s, es + [e], Step(t, e))
    decreases |es|
  {
    if es == [] {
      assert [e][1..] == [];
    } else {
      Extended(Step(s, es[0]), es[1..], t, e);
      assert (es + [e])[1..] == es[1..] + [e];
    }
  }

  /** While one call is inside, all that others can do is to come and be refused. */
  lemma OthersRefused(s: State, e: Event, id: nat, initial: nat)
    requires Inv(s, initial) && id in s.calls && s.calls[id].Guarded() && Enabled(s, e) && e.id != id
    ensures e.Enter? && Step(s, e) == s.(calls := s.calls[e.id := Returned(if e.valid then Conflict else BadRequest)])
  {
    Alone(s, id, initial);
  }

  /** Which of the steps that leave the process succeed. */
  datatype Works = Works(count: bool, hash: bool, commit: bool)

  ghost predicate Ran(start: State, run: seq<Event>, s: State, initial: nat) {
    Reaches(start, run, s) && Inv(s, initial)
  }

  lemma Took(start: State, run: seq<Event>, s: State, e: Event, initial: nat) returns (run': seq<Event>)
    requires Ran(start, run, s, initial) && Enabled(s, e)
    ensures run' == run + [e] && Ran(start, run', Step(s, e), initial)
  {
    run' := run + [e];
    Extended(start, run, s, e);
    StepInv(s, e, initial);
  }

  /** What a call returns, as if it ran alone from the state it finds. */
  function Outcomes(valid: bool, registering: bool, users: nat, works: Works): Outcome {
    if !valid then BadRequest
    else if registering then Conflict
    else if !works.count then Failure
    else if users > 0 then Conflict
    else if works.hash && works.commit then Created
    else Failure
  }

  /** Each outcome, and exactly when a call ends in it. */
  lemma OutcomeMeans(valid: bool, registering: bool, users: nat, works: Works)
    ensures var r := Outcomes(valid, registering, users, works);
            && (r == Created <==> valid && !registering && users == 0 && works.count && works.hash && works.commit)
            && (r == BadRequest <==> !valid)
            && (r == Conflict <==> valid && (registering || (works.count && users > 0)))
            && (r == Failure <==> valid && !registering && (!works.count || (users == 0 && !(works.hash && works.commit))))
  {
  }

  /** The module state, and where each call stands. */
  class Process {
    var registering: bool
    var users: nat
    var calls: map<nat, Call>

    function Abs(): State
      reads this
    {
      State(registering, users, calls)
    }

    constructor (users: nat)
      ensures Abs() == Start(users)
    {
      registering, this.users, calls := false, users, map[];
    }

    /** `run` leads from `start` to the present state, in which call `id` stands at `c`. */
    ghost predicate At(id: nat, c: Call, start: State, run: seq<Event>, initial: nat)
      reads this
    {
      Ran(start, run, Abs(), initial) && id in calls && calls[id] == c
    }

    /** An await of call `id`: the other calls take whichever of these steps they can. */
    method Await(id: nat, others: seq<Event>, ghost c: Call, ghost start: State, ghost run: seq<Event>, ghost initial: nat)
      returns (ghost run': seq<Event>)
      requires At(id, c, start, run, initial) && c.Guarded()
      modifies this
      ensures At(id, c, start, run', initial)
      ensures registering == old(registering) && users == old(users)
    {
      run' := run;
      for n := 0 to |others|
        invariant At(id, c, start, run', initial)
        invariant registering == old(registering) && users == old(users)
      {
        var e := others[n];
        if e.id != id && Enabled(Abs(), e) {
          OthersRefused(Abs(), e, id, initial);
          run' := Took(start, run', Abs(), e, initial);
          var next := Step(Abs(), e);
          registering, users, calls := next.registering, next.users, next.calls;
        }
      }
    }

    /** `count()` of the user table; None where it throws. */
    method CountUsers(id: nat, ok: bool, before: seq<Event>, after: seq<Event>,
                      ghost start: State, ghost run: seq<Event>, ghost initial: nat)
      returns (count: Option<nat>, ghost run': seq<Event>)
      requires At(id, Counting, start, run, initial)
      modifies this
      ensures count == if ok then Some(users) else None
      ensures At(id, if ok then Counted(users) else Leaving(Failure), start, run', initial)
      ensures registering == old(registering) && users == old(users)
    {
      run' := Await(id, before, Counting, start, run, initial);
      run' := Took(start, run', Abs(), Query(id, ok), initial);
      count := if ok then Some(users) else None;
      calls := calls[id := if ok then Counted(users) else Leaving(Failure)];
      run' := Await(id, after, calls[id], start, run', initial);
    }

    /** Behind the count: a call that saw an account gives up. */
    method Decide(id: nat, count: nat, ghost start: State, ghost run: seq<Event>, ghost initial: nat)
      returns (ghost run': seq<Event>)
      requires At(id, Counted(count), start, run, initial)
      modifies this
      ensures At(id, if count > 0 then Leaving(Conflict) else Hashing, start, run', initial)
      ensures registering == old(registering) && users == old(users)
    {
      run' := Took(start, run, Abs(), Resume(id), initial);
      calls := calls[id := if count > 0 then Leaving(Conflict) else Hashing];
    }

    /** `hashPassword`. */
    method HashPassword(id: nat, ok: bool, before: seq<Event>, ghost start: State, ghost run: seq<Event>, ghost initial: nat)
      returns (ghost run': seq<Event>)
      requires At(id, Hashing, start, run, initial)
      modifies this
      ensures At(id, if ok then Saving else Leaving(Failure), start, run', initial)
      ensures registering == old(registering) && users == old(users)
    {
      run' := Await(id, before, Hashing, start, run, initial);
      run' := Took(start, run', Abs(), Hash(id, ok), initial);
      calls := calls[id := if ok then Saving else Leaving(Failure)];
    }

    /** The transaction. */
    method SaveOwner(id: nat, ok: bool, before: seq<Event>, ghost start: State, ghost run: seq<Event>, ghost initial: nat)
      returns (ghost run': seq<Event>)
      requires At(id, Saving, start, run, initial)
      modifies this
      ensures At(id, Leaving(if ok then Created else Failure), start, run', initial)
      ensures registering == old(registering) && users == old(users) + if ok then 1 else 0
    {
      run' := Await(id, before, Saving, start, run, initial);
      run' := Took(start, run', Abs(), Commit(id, ok), initial);
      if ok {
        users := users + 1;
      }
      calls := calls[id := Leaving(if ok then Created else Failure)];
    }

    /** The synchronous head: validation, then test and set of the flag. */
    method Enter(id: nat, valid: bool, ghost initial: nat) returns (refusal: Option<Outcome>, ghost run: seq<Event>)
      requires Inv(Abs(), initial) && id !in calls
      modifies this
      ensures refusal == if !valid then Some(BadRequest) else if old(registering) then Some(Conflict) else None
      ensures At(id, if refusal.Some? then Returned(refusal.value) else Counting, old(Abs()), run, initial)
      ensures users == old(users) && registering == (old(registering) || refusal.None?)
    {
      run := Took(Abs(), [], Abs(), Event.Enter(id, valid), initial);
      if !valid {
        refusal := Some(BadRequest);
        calls := calls[id := Returned(BadRequest)];
      } else if registering {
        refusal := Some(Conflict);
        calls := calls[id := Returned(Conflict)];
      } else {
        refusal := None;
        registering := true;
        calls := calls[id := Counting];
      }
    }

    /** The `try` block. */
    method Attempt(id: nat, works: Works, others: seq<seq<Event>>, ghost start: State, ghost run: seq<Event>, ghost initial: nat)
      returns (outcome: Outcome, ghost run': seq<Event>)
      requires At(id, Counting, start, run, initial) && |others| == 5
      modifies this
      ensures outcome == Outcomes(true, false, old(users), works)
      ensures At(id, Leaving(outcome), start, run', initial)
      ensures registering == old(registering) && users == old(users) + if outcome.Created? then 1 else 0
    {
      var count;
      count, run' := CountUsers(id, works.count, others[0], others[1], start, run, initial);
      if count == None { return Failure, run'; }
      run' := Decide(id, count.value, start, run', initial);
      if count.value > 0 { return Conflict, run'; }
      run' := HashPassword(id, works.hash, others[2], start, run', initial);
      if !works.hash { return Failure, run'; }
      run' := SaveOwner(id, works.commit, others[3], start, run', initial);
      outcome := if works.commit then Created else Failure;
    }

    /** The `finally` block. */
    method Finish(id: nat, outcome: Outcome, before: seq<Event>, ghost start: State, ghost run: seq<Event>, ghost initial: nat)
      returns (ghost run': seq<Event>)
      requires At(id, Leaving(outcome), start, run, initial)
      modifies this
      ensures At(id, Returned(outcome), start, run', initial)
      ensures !registering && users == old(users)
    {
      run' := Await(id, before, Leaving(outcome), start, run, initial);
      run' := Took(start, run', Abs(), Leave(id), initial);
      registering := false;
      calls := calls[id := Returned(outcome)];
    }

    /** `registerOwner`, with the steps other calls try to take at each of its awaits. */
    method RegisterOwner(id: nat, valid: bool, works: Works, others: seq<seq<Event>>, ghost initial: nat)
      returns (outcome: Outcome, ghost run: seq<Event>)
      requires Inv(Abs(), initial) && id !in calls && |others| == 5
      modifies this
      ensures At(id, Returned(outcome), old(Abs()), run, initial)
      ensures outcome == Outcomes(valid, old(registering), old(users), works)
      ensures users == old(users) + if outcome.Created? then 1 else 0
      ensures registering == old(registering)
    {
      var refusal;
      refusal, run := Enter(id, valid, initial);
      if refusal.Some? { return refusal.value, run; }
      outcome, run := Attempt(id, works, others, old(Abs()), run, initial);
      run := Finish(id, outcome, others[4], old(Abs()), run, initial);
    }
  }

  /** At most one owner is ever created, however calls interleave, and none beside existing accounts. */
  lemma SingleOwner(users: nat, es: seq<Event>, t: State)
    requires Reaches(Start(users), es, t)
    ensures |Winners(t)| <= 1 && t.users == users + |Winners(t)|
    ensures users > 0 ==> Winners(t) == {}
  {
    assert Guarded(Start(users)) == {} && Winners(Start(users)) == {};
    RunInv(Start(users), es, t, users);
  }

  /** The flag tells exactly whether a call is inside, and never are there two. */
  lemma MutualExclusion(users: nat, es: seq<Event>, t: State)
    requires Reaches(Start(users), es, t)
    ensures t.registering <==> Guarded(t) != {}
    ensures |Guarded(t)| <= 1
    ensures (forall id | id in t.calls :: t.calls[id].Returned?) ==> !t.registering
  {
    assert Guarded(Start(users)) == {} && Winners(Start(users)) == {};
    RunInv(Start(users), es, t, users);
  }

  /** Whoever is inside can always leave, whatever fails: no exit path keeps the flag. */
  lemma CanLeave(s: State, id: nat) returns (es: seq<Event>, t: State)
    requires id in s.calls && s.calls[id].Guarded()
    ensures Reaches(s, es, t) && id in t.calls && t.calls[id].Returned? && !t.registering
    decreases match s.calls[id] case Leaving(_) => 0 case Counted(_) => 2 case _ => 1
  {
    var e := match s.calls[id]
      case Leaving(_) => Leave(id)
      case Counting => Query(id, false)
      case Counted(_) => Resume(id)
      case Hashing => Hash(id, false)
      case Saving => Commit(id, false);
    var next := Step(s, e);
    if next.calls[id].Returned? {
      es, t := [], next;
    } else {
      es, t := CanLeave(next, id);
    }
    assert ([e] + es)[1..] == es;
    es := [e] + es;
  }

  /** A lone valid call whose steps all work creates the owner exactly if there was no account, and is refused otherwise. */
  lemma LoneCall(users: nat, id: nat) returns (es: seq<Event>, t: State)
    ensures Reaches(Start(users), es, t) && !t.registering
    ensures t.calls == map[id := Returned(if users == 0 then Created else Conflict)]
    ensures t.users == if users == 0 then 1 else users
  {
    var s1 := Step(Start(users), Enter(id, true));
    var s2 := Step(s1, Query(id, true));
    var s3 := Step(s2, Resume(id));
    if users == 0 {
      var s4 := Step(s3, Hash(id, true));
      var s5 := Step(s4, Commit(id, true));
      t := Step(s5, Leave(id));
      es := Prefixed(s5, Leave(id), [], t);
      es := Prefixed(s4, Commit(id, true), es, t);
      es := Prefixed(s3, Hash(id, true), es, t);
    } else {
      t := Step(s3, Leave(id));
      es := Prefixed(s3, Leave(id), [], t);
    }
    es := Prefixed(s2, Resume(id), es, t);
    es := Prefixed(s1, Query(id, true), es, t);
    es := Prefixed(Start(users), Enter(id, true), es, t);
  }

  lemma Prefixed(s: State, e: Event, es: seq<Event>, t: State) returns (all: seq<Event>)
    requires Enabled(s, e) && Reaches(Step(s, e), es, t)
    ensures all == [e] + es && Reaches(s, all, t)
  {
    all := [e] + es;
    assert all[1..] == es;
  }

  /** While a call is inside, every other one is refused at once and changes nothing. */
  lemma RefusedWhileInside(users: nat, es: seq<Event>, s: State, id: nat, valid: bool)
    requires Reaches(Start(users), es, s) && Guarded(s) != {} && id !in s.calls
    ensures Step(s, Enter(id, valid)) == s.(calls := s.calls[id := Returned(if valid then Conflict else BadRequest)])
  {
    MutualExclusion(users, es, s);
  }

  // ---------- adoption of orphan rows ----------

  datatype Row = Row(id: string, workspaceId: Option<string>)
  datatype Table = Table(hasColumn: bool, rows: seq<Row>)

  const WORKSPACE_TABLES: seq<string> := [
    "chat_flow", "tool", "assistant", "credential", "variable", "apikey",
    "document_store", "dataset", "evaluation", "evaluator", "custom_template", "execution"]

  /** Rows without a workspace move into it; all others, and the order of the rows, stay. */
  function Adopt(rows: seq<Row>, workspaceId: string): seq<Row> {
    seq(|rows|, i requires 0 <= i < |rows| => if rows[i].workspaceId == None then rows[i].(workspaceId := Some(workspaceId)) else rows[i])
  }

  /** Row by row: an orphan gets the workspace, a row that has one keeps it, and no row is lost, added or moved. */
  lemma AdoptMeans(rows: seq<Row>, workspaceId: string, i: nat)
    requires i < |rows|
    ensures |Adopt(rows, workspaceId)| == |rows|
    ensures var row := Adopt(rows, workspaceId)[i];
            && row.id == rows[i].id
            && (rows[i].workspaceId == None ==> row.workspaceId == Some(workspaceId))
            && (rows[i].workspaceId.Some? ==> row.workspaceId == rows[i].workspaceId)
  {
  }

  /** Rows belong to a workspace in these tables. */
  lemma ListedTables(name: string)
    ensures name in WORKSPACE_TABLES <==>
              || name == "chat_flow" || name == "tool" || name == "assistant" || name == "credential" || name == "variable"
              || name == "apikey" || name == "document_store" || name == "dataset" || name == "evaluation"
              || name == "evaluator" || name == "custom_template" || name == "execution"
  {
  }

  class Database {
    var tables: map<string, Table>

    /** `adoptOrphanRows`; a table that does not exist has no such column. */
    method AdoptOrphanRows(workspaceId: string)
      modifies this
      ensures tables.Keys == old(tables).Keys
      ensures forall name | name in tables ::
                tables[name] == if name in WORKSPACE_TABLES && old(tables)[name].hasColumn
                                then old(tables)[name].(rows := Adopt(old(tables)[name].rows, workspaceId))
                                else old(tables)[name]
    {
      for n := 0 to |WORKSPACE_TABLES|
        invariant tables.Keys == old(tables).Keys
        invariant forall name | name in tables ::
                    tables[name] == if name in WORKSPACE_TABLES[..n] && old(tables)[name].hasColumn
                                    then old(tables)[name].(rows := Adopt(old(tables)[name].rows, workspaceId))
                                    else old(tables)[name]
      {
        var table := WORKSPACE_TABLES[n];
        if table in tables && tables[table].hasColumn {
          AdoptTwice(old(tables)[table].rows, workspaceId, workspaceId);
          tables := tables[table := tables[table].(rows := Adopt(tables[table].rows, workspaceId))];
        }
        assert WORKSPACE_TABLES[..n + 1] == WORKSPACE_TABLES[..n] + [table];
      }
    }
  }

  /** Adoption leaves no orphan, so adopting again, for whichever workspace, changes nothing. */
  lemma AdoptTwice(rows: seq<Row>, first: string, second: string)
    ensures Adopt(Adopt(rows, first), second) == Adopt(rows, first)
  {
  }
}
