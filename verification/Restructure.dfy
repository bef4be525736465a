/**
  The message restructuring of packages/components/nodes/sequentialagents/commonUtils.ts:
  a filter pass that rewrites contents in place, and the loop that makes a history
  acceptable to Mistral by splicing into the list it is walking over.
 */
module Restructure {

  datatype Kind = Human | AI | Tool | OtherKind

  /** Message content: a string, or the content-block array of some providers. */
  datatype Content = Text(s: string) | Blocks(blocks: seq<string>)

  class Message {
    const kind: Kind
    const hasToolCalls: bool
    const toolCallsDenied: bool
    var content: Content

    constructor (kind: Kind, content: Content)
      ensures this.kind == kind && this.content == content && !hasToolCalls && !toolCallsDenied
    {
      this.kind, this.content, hasToolCalls, toolCallsDenied := kind, content, false, false;
    }
  }

  function Kinds(ms: seq<Message>): (ks: seq<Kind>)
    ensures |ks| == |ms|
    ensures forall i | 0 <= i < |ms| :: ks[i] == ms[i].kind
  {
    seq(|ms|, i requires 0 <= i < |ms| => ms[i].kind)
  }

  // ---------- what Mistral accepts, and the one-pass form of the loop ----------

  predicate NeedsAnswer(k: Kind) {
    k.AI? || k.Tool?
  }

  /** No Tool message directly before a Human one, and no AI or Tool message at the end. */
  predicate MistralRules(ks: seq<Kind>) {
    && (forall i | 0 <= i < |ks| - 1 :: !(ks[i].Tool? && ks[i + 1].Human?))
    && (ks != [] ==> !NeedsAnswer(ks[|ks| - 1]))
  }

  /** An AI message between every Tool message and a Human message that follows it. */
  function Separate(ks: seq<Kind>): seq<Kind> {
    if |ks| <= 1 then ks
    else if ks[0].Tool? && ks[1].Human? then [Tool, AI] + Separate(ks[1..])
    else [ks[0]] + Separate(ks[1..])
  }

  /** ... after a Human message at the end, if the last message needs an answer. */
  function Repair(ks: seq<Kind>): seq<Kind> {
    Separate(if ks != [] && NeedsAnswer(ks[|ks| - 1]) then ks + [Human] else ks)
  }

  function Tools(ks: seq<Kind>): nat {
    if ks == [] then 0 else (if ks[0].Tool? then 1 else 0) + Tools(ks[1..])
  }

  lemma {:induction false} SeparateEnds(ks: seq<Kind>)
    requires ks != []
    ensures Separate(ks) != [] && Separate(ks)[0] == ks[0]
    ensures Separate(ks)[|Separate(ks)| - 1] == ks[|ks| - 1]
    ensures forall i | 0 <= i < |Separate(ks)| - 1 :: !(Separate(ks)[i].Tool? && Separate(ks)[i + 1].Human?)
  {
    if |ks| > 1 {
      SeparateEnds(ks[1..]);
      var rest := Separate(ks[1..]);
      if ks[0].Tool? && ks[1].Human? {
        assert Separate(ks) == [Tool, AI] + rest;
      } else {
        assert Separate(ks) == [ks[0]] + rest;
      }
    }
  }

  /** The repaired list is acceptable. */
  lemma RepairMeetsRules(ks: seq<Kind>)
    ensures MistralRules(Repair(ks))
  {
    if ks != [] {
      SeparateEnds(if NeedsAnswer(ks[|ks| - 1]) then ks + [Human] else ks);
    }
  }

  lemma {:induction false} SeparateLength(ks: seq<Kind>)
    ensures |ks| <= |Separate(ks)| <= |ks| + Tools(ks)
    ensures Separate(ks) == ks <==> forall i | 0 <= i < |ks| - 1 :: !(ks[i].Tool? && ks[i + 1].Human?)
  {
    if |ks| > 1 {
      SeparateLength(ks[1..]);
      assert ks == [ks[0]] + ks[1..];
      if ks[0].Tool? && ks[1].Human? {
        assert |Separate(ks)| > |ks|;
      } else {
        assert Separate(ks)[1..] == Separate(ks[1..]);
        assert Separate(ks) == ks <==> Separate(ks[1..]) == ks[1..];
        if forall i | 0 <= i < |ks[1..]| - 1 :: !(ks[1..][i].Tool? && ks[1..][i + 1].Human?) {
          forall i | 0 <= i < |ks| - 1 ensures !(ks[i].Tool? && ks[i + 1].Human?) {
            if i > 0 { assert ks[1..][i - 1] == ks[i] && ks[1..][i] == ks[i + 1]; }
          }
        }
      }
    }
  }

  lemma {:induction false} ToolsAppend(ks: seq<Kind>, k: Kind)
    ensures Tools(ks + [k]) == Tools(ks) + if k.Tool? then 1 else 0
  {
    if ks != [] {
      assert (ks + [k])[1..] == ks[1..] + [k];
      ToolsAppend(ks[1..], k);
    }
  }

  /** The number of places with a Tool message. */
  lemma {:induction false} ToolsMean(ks: seq<Kind>)
    ensures Tools(ks) == |set i | 0 <= i < |ks| && ks[i] == Tool|
  {
    if ks != [] {
      var n := |ks| - 1;
      ToolsMean(ks[..n]);
      ToolsAppend(ks[..n], ks[n]);
      assert ks == ks[..n] + [ks[n]];
      assert (set i | 0 <= i < |ks| && ks[i] == Tool)
             == (set i | 0 <= i < n && ks[..n][i] == Tool) + if ks[n] == Tool then {n} else {};
    }
  }

  /** A repair adds at most one message per Tool message and one at the end ... */
  lemma RepairLength(ks: seq<Kind>)
    ensures |ks| <= |Repair(ks)| <= |ks| + Tools(ks) + 1
  {
    SeparateLength(if ks != [] && NeedsAnswer(ks[|ks| - 1]) then ks + [Human] else ks);
    ToolsAppend(ks, Human);
  }

  /** ... and exactly the acceptable lists need none. */
  lemma RepairFixedPoints(ks: seq<Kind>)
    ensures Repair(ks) == ks <==> MistralRules(ks)
  {
    SeparateLength(ks);
    if ks != [] && NeedsAnswer(ks[|ks| - 1]) {
      SeparateLength(ks + [Human]);
    }
  }

  /** A second pass over the kinds adds nothing. */
  lemma RepairIdempotent(ks: seq<Kind>)
    ensures Repair(Repair(ks)) == Repair(ks)
  {
    RepairMeetsRules(ks);
    RepairFixedPoints(Repair(ks));
  }

  /** `restructureMessages` repairs lists of two or more; a shorter one stays as it is. */
  function MistralKinds(ks: seq<Kind>): seq<Kind> {
    if |ks| > 1 then Repair(ks) else ks
  }

  /** The rules hold afterwards except for a history of one message that needs an answer. */
  lemma RulesAfterRestructuring(ks: seq<Kind>)
    ensures MistralRules(MistralKinds(ks)) <==> !(|ks| == 1 && NeedsAnswer(ks[0]))
  {
    RepairMeetsRules(ks);
  }

  // ---------- the loop, one step at a time ----------

  lemma RepairStep(ks: seq<Kind>)
    requires |ks| >= 2
    ensures Repair(ks) == (if ks[0].Tool? && ks[1].Human? then [Tool, AI] else [ks[0]]) + Repair(ks[1..])
  {
    if NeedsAnswer(ks[|ks| - 1]) {
      assert (ks + [Human])[1..] == ks[1..] + [Human];
    }
  }

  lemma RepairPushed(ks: seq<Kind>)
    requires ks != [] && NeedsAnswer(ks[|ks| - 1])
    ensures Repair(ks + [Human]) == Repair(ks)
  {
  }

  /** The list without the inserted messages. */
  ghost function Without(ms: seq<Message>, added: set<Message>): seq<Message> {
    if ms == [] then []
    else (if ms[0] in added then [] else [ms[0]]) + Without(ms[1..], added)
  }

  lemma {:induction false} WithoutMore(ms: seq<Message>, added: set<Message>, m: Message)
    requires m !in ms
    ensures Without(ms, added + {m}) == Without(ms, added)
  {
    if ms != [] {
      WithoutMore(ms[1..], added, m);
    }
  }

  lemma WithoutHead(m: Message, ms: seq<Message>, added: set<Message>)
    ensures Without([m] + ms, added) == (if m in added then [] else [m]) + Without(ms, added)
  {
    assert ([m] + ms)[1..] == ms;
  }

  lemma {:induction false} WithoutInserted(ms: seq<Message>, at: nat, m: Message, added: set<Message>)
    requires at <= |ms| && m in added
    ensures Without(Insert(ms, at, m), added) == Without(ms, added)
  {
    if at == 0 {
      assert Insert(ms, 0, m) == [m] + ms;
      WithoutHead(m, ms, added);
    } else {
      WithoutInserted(ms[1..], at - 1, m, added);
      assert Insert(ms, at, m) == [ms[0]] + Insert(ms[1..], at - 1, m);
      WithoutHead(ms[0], Insert(ms[1..], at - 1, m), added);
    }
  }

  function Insert<T>(s: seq<T>, at: nat, x: T): (r: seq<T>)
    requires at <= |s|
    ensures |r| == |s| + 1 && r[at] == x
    ensures forall j | 0 <= j < at :: r[j] == s[j]
    ensures forall j | at <= j < |s| :: r[j + 1] == s[j]
  {
    s[..at] + [x] + s[at..]
  }

  lemma KindsInsert(ms: seq<Message>, at: nat, m: Message)
    requires at <= |ms|
    ensures Kinds(Insert(ms, at, m)) == Insert(Kinds(ms), at, m.kind)
  {
  }

  lemma {:induction false} WithoutNothing(ms: seq<Message>, added: set<Message>)
    requires forall m | m in ms :: m !in added
    ensures Without(ms, added) == ms
  {
    if ms != [] {
      WithoutNothing(ms[1..], added);
      assert ms == [ms[0]] + ms[1..];
    }
  }

  /** The list is done up to `i` and as it was from there: what the finished loop will return. */
  function Target(ks: seq<Kind>, i: nat): seq<Kind>
    requires i <= |ks|
  {
    ks[..i] + Repair(ks[i..])
  }

  lemma TargetStart(ks: seq<Kind>)
    ensures Target(ks, 0) == Repair(ks)
  {
    assert ks[0..] == ks;
  }

  lemma TargetEnd(ks: seq<Kind>)
    ensures Target(ks, |ks|) == ks
  {
  }

  lemma MoveOn(ks: seq<Kind>, i: nat)
    requires i < |ks|
    requires if i + 1 < |ks| then !(ks[i].Tool? && ks[i + 1].Human?) else !NeedsAnswer(ks[i])
    ensures Target(ks, i + 1) == Target(ks, i)
  {
    if i + 1 < |ks| {
      RepairStep(ks[i..]);
      assert ks[i..][1..] == ks[i + 1..];
    } else {
      assert ks[i..] == [ks[i]] && ks[i + 1..] == [];
    }
    assert ks[..i + 1] == ks[..i] + [ks[i]];
  }

  lemma InsertStep(ks: seq<Kind>, i: nat)
    requires i + 1 < |ks| && ks[i].Tool? && ks[i + 1].Human?
    ensures Target(Insert(ks, i + 1, AI), i + 1) == Target(ks, i)
  {
    var ks' := Insert(ks, i + 1, AI);
    RepairStep(ks[i..]);
    assert ks[i..][1..] == ks[i + 1..];
    assert ks'[i + 1..] == [AI] + ks[i + 1..];
    RepairStep(ks'[i + 1..]);
    assert ks'[i + 1..][1..] == ks[i + 1..];
    assert ks'[..i + 1] == ks[..i] + [Tool];
  }

  lemma PushStep(ks: seq<Kind>, i: nat)
    requires i + 2 == |ks| && NeedsAnswer(ks[i + 1])
    ensures Target(Insert(ks, |ks|, Human), i + 1) == Target(ks, i)
  {
    assert Insert(ks, |ks|, Human) == ks + [Human];
    RepairPushed(ks[i..]);
    assert (ks + [Human])[i..] == ks[i..] + [Human];
    MoveOn(ks + [Human], i);
    assert (ks + [Human])[..i] == ks[..i];
  }

  const EXECUTED := Text("Tool calls executed")
  const DEFAULT_QUESTION := Text("Given the user question, answer user query")

  /** The content of the closing Human message: that of the message it answers, unless empty. */
  function AnswerTo(c: Content): Content {
    if c == Text("") then DEFAULT_QUESTION else c
  }

  function Last(ms: seq<Message>): Message
    requires ms != []
  {
    ms[|ms| - 1]
  }

  /** What the loop inserts: AI messages with a fixed text, and one Human message at the end. */
  ghost predicate InsertedOk(messages: seq<Message>, added: set<Message>, last: Content)
    requires messages != []
    reads added
  {
    forall m | m in added ::
      if m.kind.AI? then m.content == EXECUTED
      else m.kind.Human? && m == Last(messages) && m.content == AnswerTo(last)
  }

  /** `messages.splice(i + 1, 0, new AIMessage(...))`. */
  method Separator(messages: seq<Message>, at: nat, ghost added: set<Message>, ghost last: Content)
    returns (grown: seq<Message>, ghost m: Message)
    requires at < |messages| && InsertedOk(messages, added, last)
    ensures fresh(m)
    ensures Kinds(grown) == Insert(Kinds(messages), at, AI)
    ensures Without(grown, added + {m}) == Without(messages, added)
    ensures Last(grown) == Last(messages) && InsertedOk(grown, added + {m}, last)
  {
    var x := new Message(AI, EXECUTED);
    grown, m := Insert(messages, at, x), x;
    KindsInsert(messages, at, m);
    WithoutMore(messages, added, m);
    WithoutInserted(messages, at, m, added + {m});
    assert Last(grown) == Last(messages);
  }

  /** `messages.push(new HumanMessage(...))` for a message at the end that needs an answer. */
  method Answer(messages: seq<Message>, ghost added: set<Message>)
    returns (grown: seq<Message>, ghost m: Message)
    requires messages != [] && NeedsAnswer(Last(messages).kind) && InsertedOk(messages, added, Last(messages).content)
    ensures fresh(m)
    ensures Kinds(grown) == Insert(Kinds(messages), |messages|, Human)
    ensures Without(grown, added + {m}) == Without(messages, added)
    ensures Last(grown).kind.Human? && InsertedOk(grown, added + {m}, Last(messages).content)
  {
    var x := new Message(Human, AnswerTo(Last(messages).content));
    grown, m := Insert(messages, |messages|, x), x;
    KindsInsert(messages, |messages|, m);
    WithoutMore(messages, added, m);
    WithoutInserted(messages, |messages|, m, added + {m});
    assert Last(grown) == m;
  }

  /** What holds before turn `i`; a message at the end that needs an answer is the original last one, and not yet reached. */
  ghost predicate Repairing(messages: seq<Message>, i: nat, added: set<Message>, original: Message)
    reads added, original
  {
    && i <= |messages| && |messages| >= 2
    && (i + 1 >= |messages| ==> !NeedsAnswer(Last(messages).kind))
    && (NeedsAnswer(Last(messages).kind) ==> Last(messages) == original)
    && InsertedOk(messages, added, original.content)
  }

  /** One turn of the loop. */
  method Turn(messages: seq<Message>, i: nat, ghost added: set<Message>, ghost original: Message)
    returns (grown: seq<Message>, ghost added': set<Message>)
    requires i < |messages| && Repairing(messages, i, added, original)
    ensures |grown| >= |messages| && Target(Kinds(grown), i + 1) == Target(Kinds(messages), i)
    ensures Repairing(grown, i + 1, added', original)
    ensures added <= added' && fresh(added' - added)
    ensures Without(grown, added') == Without(messages, added)
  {
    grown, added' := messages, added;
    var message := messages[i];
    var denied := message.toolCallsDenied;
    ghost var ks := Kinds(messages);
    if message.kind.Tool? && i == |messages| - 1 && denied {
      assert false;  // the turn before has already put a Human message behind a Tool message at the end
    } else if i + 1 < |messages| {
      var nextMessage := messages[i + 1];
      if message.kind.Tool? && nextMessage.kind.Human? {
        ghost var m;
        InsertStep(ks, i);
        grown, m := Separator(messages, i + 1, added, original.content);
        added' := added + {m};
      } else if i + 1 != |messages| - 1 || !NeedsAnswer(nextMessage.kind) {
        MoveOn(ks, i);
      }
      if i + 1 == |grown| - 1 && NeedsAnswer(nextMessage.kind) {
        ghost var m;
        PushStep(ks, i);
        grown, m := Answer(messages, added);
        added' := added + {m};
      }
    } else {
      MoveOn(ks, i);
    }
  }

  /** The loop over a list that grows while it runs. */
  method RepairLoop(filtered: seq<Message>) returns (messages: seq<Message>, ghost added: set<Message>)
    requires |filtered| > 1
    ensures Kinds(messages) == Repair(Kinds(filtered))
    ensures fresh(added) && Without(messages, added) == filtered
    ensures messages != [] && InsertedOk(messages, added, Last(filtered).content)
  {
    messages, added := filtered, {};
    ghost var original, target := Last(filtered), Target(Kinds(filtered), 0);
    TargetStart(Kinds(filtered));
    var i := 0;
    while i < |messages|
      invariant i <= |messages| && Target(Kinds(messages), i) == target
      invariant Repairing(messages, i, added, original)
      invariant fresh(added)
      invariant Without(messages, added) == Without(filtered, {})
      decreases |target| - i
    {
      messages, added := Turn(messages, i, added, original);
      i := i + 1;
    }
    TargetEnd(Kinds(messages));
    WithoutNothing(filtered, {});
  }

  /** The Mistral branch. */
  method RepairForMistral(filtered: seq<Message>) returns (messages: seq<Message>, ghost added: set<Message>)
    ensures Kinds(messages) == MistralKinds(Kinds(filtered))
    ensures fresh(added) && Without(messages, added) == filtered
    ensures filtered == [] ==> added == {}
    ensures filtered != [] ==> InsertedOk(messages, added, Last(filtered).content)
  {
    if |filtered| > 1 {
      messages, added := RepairLoop(filtered);
    } else {
      messages, added := filtered, {};
      WithoutNothing(filtered, {});
    }
  }

  // ---------- the filter pass and the whole function ----------

  /** Array contents are dropped, except those of messages with tool calls, which become strings. */
  predicate Keep(m: Message)
    reads m
  {
    m.content.Text? || m.hasToolCalls
  }

  function Rewritten(m: Message, stringify: Content -> string): Content
    reads m
  {
    if m.hasToolCalls && m.content != Text("") then Text(stringify(m.content)) else m.content
  }

  ghost function Filtered(state: seq<Message>): seq<Message>
    reads state
  {
    if state == [] then []
    else Filtered(state[..|state| - 1]) + if Keep(state[|state| - 1]) then [state[|state| - 1]] else []
  }

  ghost predicate Distinct(state: seq<Message>) {
    forall i, j | 0 <= i < j < |state| :: state[i] != state[j]
  }

  /** The loop over `state.messages`. */
  method FilterPass(state: seq<Message>, stringify: Content -> string) returns (messages: seq<Message>)
    modifies state
    ensures messages == old(Filtered(state))
    ensures forall m | m in messages :: m in state && m.content.Text?
    ensures forall m | m in state && !m.hasToolCalls :: m.content == old(m.content)
    ensures Distinct(state) ==> forall j | 0 <= j < |state| :: state[j].content == old(Rewritten(state[j], stringify))
  {
    messages := [];
    for i := 0 to |state|
      invariant messages == old(Filtered(state[..i]))
      invariant forall m | m in messages :: m in state && m.content.Text?
      invariant forall m | m in state && !m.hasToolCalls :: m.content == old(m.content)
      invariant Distinct(state) ==> forall j | 0 <= j < i :: state[j].content == old(Rewritten(state[j], stringify))
      invariant Distinct(state) ==> forall j | i <= j < |state| :: state[j].content == old(state[j].content)
    {
      var message := state[i];
      assert state[..i + 1][..i] == state[..i];
      if message.hasToolCalls && message.content != Text("") {
        message.content := Text(stringify(message.content));
      }
      if message.content.Text? {
        messages := messages + [message];
      }
    }
    assert state[..|state|] == state;
  }

  datatype Provider = Mistral | Anthropic | AnyOther

  /** `restructureMessages`. */
  method RestructureMessages(provider: Provider, state: seq<Message>, stringify: Content -> string)
    returns (messages: seq<Message>, ghost added: set<Message>)
    modifies state
    ensures fresh(added)
    ensures provider.Mistral? ==> Without(messages, added) == old(Filtered(state))
    ensures provider.Mistral? ==> Kinds(messages) == MistralKinds(Kinds(old(Filtered(state))))
    ensures provider.Mistral? && old(Filtered(state)) != [] ==>
              messages != [] && InsertedOk(messages, added, Last(old(Filtered(state))).content)
    ensures provider.Mistral? && old(Filtered(state)) == [] ==> added == {}
    ensures provider.Anthropic? ==> AnthropicResult(old(Filtered(state)), messages)
    ensures provider.AnyOther? ==> messages == old(Filtered(state))
    ensures forall m | m in state && !m.hasToolCalls :: m.content == old(m.content)
    ensures Distinct(state) ==> forall j | 0 <= j < |state| :: state[j].content == old(Rewritten(state[j], stringify))
  {
    added := {};
    messages := FilterPass(state, stringify);
    match provider
    case Mistral =>
      messages, added := RepairForMistral(messages);
    case Anthropic =>
      if |messages| > 0 && messages[0].kind.AI? {
        var first := new Message(Human, messages[0].content);
        messages := [first] + messages[1..];
        assert messages[0].content == first.content;
      }
    case AnyOther =>
  }

  /** Anthropic takes no AI message first: a Human one with the same content stands in for it. */
  ghost predicate AnthropicResult(filtered: seq<Message>, messages: seq<Message>)
    reads filtered, messages
  {
    if filtered != [] && filtered[0].kind.AI?
    then messages != [] && messages[0].kind.Human? && messages[0].content == filtered[0].content && messages[1..] == filtered[1..]
    else messages == filtered
  }

  // ---------- the same without the names used above ----------

  /** The rules: no Tool message before a Human one, and neither an AI nor a Tool message last. */
  lemma RulesMean(ks: seq<Kind>)
    ensures MistralRules(ks) <==>
              && (forall i, j | 0 <= i < j < |ks| && j == i + 1 :: !(ks[i] == Tool && ks[j] == Human))
              && (ks != [] ==> ks[|ks| - 1] == Human || ks[|ks| - 1] == OtherKind)
  {
  }

  lemma SeparateNext(x: Kind, rest: seq<Kind>)
    requires rest != []
    ensures Separate([x] + rest) == (if x == Tool && rest[0] == Human then [Tool, AI] else [x]) + Separate(rest)
  {
    assert ([x] + rest)[1..] == rest;
  }

  /** Where two parts of a list meet, an AI message comes between them exactly if a Tool message meets a Human one. */
  lemma {:induction false} SeparateJoined(a: seq<Kind>, b: seq<Kind>)
    requires a != [] && b != []
    ensures Separate(a + b) == Separate(a) + (if a[|a| - 1] == Tool && b[0] == Human then [AI] else []) + Separate(b)
  {
    var x, rest := a[0], a[1..];
    if rest == [] {
      assert a == [x];
      SeparateOne(x);
      SeparateNext(x, b);
    } else {
      assert a == [x] + rest && a + b == [x] + (rest + b);
      SeparateNext(x, rest);
      SeparateNext(x, rest + b);
      SeparateJoined(rest, b);
      Regroup(if x == Tool && rest[0] == Human then [Tool, AI] else [x], Separate(rest),
              if a[|a| - 1] == Tool && b[0] == Human then [AI] else [], Separate(b));
    }
  }

  lemma Regroup(p: seq<Kind>, a: seq<Kind>, m: seq<Kind>, b: seq<Kind>)
    ensures p + (a + m + b) == (p + a) + m + b
  {
  }

  /** At the end a Human message answers an AI message or, behind an AI message, a Tool message. */
  lemma RepairMeans(ks: seq<Kind>)
    ensures MistralKinds(ks) ==
              if |ks| <= 1 then ks
              else Separate(ks) + match ks[|ks| - 1] case AI => [Human] case Tool => [AI, Human] case _ => []
  {
    if |ks| > 1 && NeedsAnswer(ks[|ks| - 1]) {
      SeparatePushed(ks);
    }
  }

  lemma SeparatePushed(ks: seq<Kind>)
    requires ks != []
    ensures Separate(ks + [Human]) == Separate(ks) + if ks[|ks| - 1] == Tool then [AI, Human] else [Human]
  {
    SeparateJoined(ks, [Human]);
    SeparateOne(Human);
    HumanBehind(Separate(ks), ks[|ks| - 1] == Tool);
  }

  lemma HumanBehind(ks: seq<Kind>, tool: bool)
    ensures ks + (if tool then [AI] else []) + [Human] == ks + if tool then [AI, Human] else [Human]
  {
  }

  lemma SeparateOne(k: Kind)
    ensures Separate([k]) == [k]
  {
  }

  /** The inserted messages: AI messages that say the tools were run, and a Human one at the end with the text it answers or, if that is empty, a request to answer the question. */
  lemma InsertedMeans(messages: seq<Message>, added: set<Message>, last: Content, m: Message)
    requires messages != [] && InsertedOk(messages, added, last) && m in added
    ensures m.kind == AI || m.kind == Human
    ensures m.kind == AI ==> m.content == Text("Tool calls executed")
    ensures m.kind == Human ==>
              m == messages[|messages| - 1]
              && m.content == if last == Text("") then Text("Given the user question, answer user query") else last
  {
  }

  /** `part` is what stands, in order, at the flagged places of `whole`. */
  ghost predicate Flagged(part: seq<Message>, whole: seq<Message>, flags: seq<bool>, at: seq<nat>)
    requires |flags| == |whole|
  {
    && |at| == |part|
    && (forall k | 0 <= k < |at| :: at[k] < |whole| && part[k] == whole[at[k]])
    && (forall k, l | 0 <= k < l < |at| :: at[k] < at[l])
    && (forall i: nat | i < |whole| :: i in at <==> flags[i])
  }

  lemma OneMoreFlag(part: seq<Message>, whole: seq<Message>, flags: seq<bool>, at: seq<nat>, m: Message, flag: bool)
    requires |flags| == |whole| && Flagged(part, whole, flags, at)
    ensures Flagged(part + if flag then [m] else [], whole + [m], flags + [flag], at + if flag then [|whole|] else [])
  {
    assert forall k | 0 <= k < |at| :: at[k] < |whole|;
    assert |whole| !in at;
  }

  ghost function KeptFlags(state: seq<Message>): (flags: seq<bool>)
    reads state
    ensures |flags| == |state| && forall i | 0 <= i < |state| :: flags[i] == (state[i].content.Text? || state[i].hasToolCalls)
  {
    if state == [] then [] else KeptFlags(state[..|state| - 1]) + [state[|state| - 1].content.Text? || state[|state| - 1].hasToolCalls]
  }

  /** The filter keeps, in order, exactly the messages with a string or with tool calls. */
  lemma {:induction false} FilteredInOrder(state: seq<Message>) returns (at: seq<nat>)
    ensures Flagged(Filtered(state), state, KeptFlags(state), at)
  {
    at := [];
    if state != [] {
      var n := |state| - 1;
      var m := state[n];
      at := FilteredInOrder(state[..n]);
      OneMoreFlag(Filtered(state[..n]), state[..n], KeptFlags(state[..n]), at, m, Keep(m));
      at := at + if Keep(m) then [n] else [];
      assert state[..n] + [m] == state;
    }
  }

  /** Messages with tool calls get their content as one string, even when it was one already, unless it was empty. */
  lemma RewrittenMeans(m: Message, stringify: Content -> string)
    ensures m.hasToolCalls && m.content != Text("") ==> Rewritten(m, stringify) == Text(stringify(m.content))
    ensures !m.hasToolCalls || m.content == Text("") ==> Rewritten(m, stringify) == m.content
  {
  }

  ghost function OtherFlags(ms: seq<Message>, added: set<Message>): (flags: seq<bool>)
    ensures |flags| == |ms| && forall i | 0 <= i < |ms| :: flags[i] == (ms[i] !in added)
  {
    if ms == [] then [] else OtherFlags(ms[..|ms| - 1], added) + [ms[|ms| - 1] !in added]
  }

  /** Without the inserted messages the list is the others in order. */
  lemma {:induction false} WithoutInOrder(ms: seq<Message>, added: set<Message>) returns (at: seq<nat>)
    ensures Flagged(Without(ms, added), ms, OtherFlags(ms, added), at)
  {
    at := [];
    if ms != [] {
      var n := |ms| - 1;
      var m := ms[n];
      at := WithoutInOrder(ms[..n], added);
      OneMoreFlag(Without(ms[..n], added), ms[..n], OtherFlags(ms[..n], added), at, m, m !in added);
      WithoutLast(ms[..n], m, added);
      at := at + if m !in added then [n] else [];
      assert ms[..n] + [m] == ms;
    }
  }

  lemma {:induction false} WithoutLast(ms: seq<Message>, m: Message, added: set<Message>)
    ensures Without(ms + [m], added) == Without(ms, added) + if m in added then [] else [m]
  {
    if ms != [] {
      assert (ms + [m])[1..] == ms[1..] + [m];
      WithoutLast(ms[1..], m, added);
    }
  }

  /** For Anthropic nothing but an AI message at the start is replaced, by a Human one of the same content. */
  lemma AnthropicMeans(filtered: seq<Message>, messages: seq<Message>)
    requires AnthropicResult(filtered, messages)
    ensures |messages| == |filtered| && forall i | 0 < i < |messages| :: messages[i] == filtered[i]
    ensures messages != [] && filtered[0].kind == AI ==> messages[0].kind == Human && messages[0].content == filtered[0].content
    ensures messages != [] && filtered[0].kind != AI ==> messages[0] == filtered[0]
  {
    if messages != [] && filtered != [] && filtered[0].kind == AI {
      assert |messages| == 1 + |messages[1..]| && |filtered| == 1 + |filtered[1..]|;
      forall i | 0 < i < |messages| ensures messages[i] == filtered[i] {
        assert messages[1..][i - 1] == filtered[1..][i - 1];
      }
    }
  }
}
