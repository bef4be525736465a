/**
  The brace matcher of packages/components/src/utils.ts: one pass with a stack that collects
  the variables written {like this} in a prompt.
 */
module InputVariables {

  /** Text whose brace at `i` is not preceded by a backslash. */
  predicate Opens(s: string, i: nat) {
    i < |s| && s[i] == '{' && (i == 0 || s[i - 1] != '\\')
  }

  predicate Closes(s: string, i: nat) {
    i < |s| && s[i] == '}' && (i == 0 || s[i - 1] != '\\')
  }

  /** Unescaped opening minus closing braces in s[i..k]. */
  function Depth(s: string, i: nat, k: nat): int
    requires i <= k <= |s|
    decreases k
  {
    if i == k then 0
    else Depth(s, i, k - 1) + (if Opens(s, k - 1) then 1 else if Closes(s, k - 1) then -1 else 0)
  }

  /** No closing brace in s[i..k] lacks its opening brace. */
  ghost predicate NeverBelow(s: string, i: nat, k: nat)
    requires i <= k <= |s|
  {
    forall m | i <= m <= k :: Depth(s, i, m) >= 0
  }

  ghost predicate Balanced(s: string, i: nat, k: nat)
    requires i <= k <= |s|
  {
    NeverBelow(s, i, k) && Depth(s, i, k) == 0
  }

  /** The opening brace at `i` belongs to the closing brace at `j`. */
  ghost predicate Pair(s: string, i: nat, j: nat)
    requires i < j < |s|
  {
    Opens(s, i) && Closes(s, j) && Balanced(s, i + 1, j)
  }

  /** A reported variable: the closing brace it was found at and its text. */
  datatype Found = Found(close: nat, text: string)

  ghost predicate IsVariable(s: string, f: Found) {
    && f.close < |s|
    && ':' !in f.text
    && exists i: nat :: i < f.close && Pair(s, i, f.close) && f.text == s[i + 1..f.close]
  }

  /**
    What `getInputVariables` reports before position `k`: every variable closed there,
    nothing else, in the order of the closing braces.
   */
  ghost predicate Reports(s: string, k: nat, found: seq<Found>) {
    && (forall f | f in found :: f.close < k && IsVariable(s, f))
    && (forall f: Found | f.close < k && IsVariable(s, f) :: f in found)
    && (forall a, b | 0 <= a < b < |found| :: found[a].close < found[b].close)
  }

  /** The opening brace at `i` still waits at position `k`, with `depth` braces open behind it. */
  ghost predicate Waits(s: string, i: nat, k: nat, depth: int)
    requires k <= |s|
  {
    i < k && Opens(s, i) && NeverBelow(s, i + 1, k) && Depth(s, i + 1, k) == depth
  }

  /** The stack holds exactly the opening braces still waiting, each at its depth. */
  ghost predicate StackOk(s: string, k: nat, stack: seq<nat>)
    requires k <= |s|
  {
    && (forall t | 0 <= t < |stack| :: Waits(s, stack[t], k, |stack| - 1 - t))
    && (forall i: nat, d: int | Waits(s, i, k, d) :: i in stack)
  }

  /** A closing brace has at most one partner: the top of the stack. */
  lemma PartnerIsTop(s: string, j: nat, stack: seq<nat>, i: nat)
    requires j < |s| && StackOk(s, j, stack) && i < j && Pair(s, i, j)
    ensures stack != [] && i == stack[|stack| - 1]
  {
    assert Waits(s, i, j, 0);
    assert i in stack;
  }

  lemma TopIsPartner(s: string, k: nat, stack: seq<nat>)
    requires k < |s| && StackOk(s, k, stack) && stack != [] && Closes(s, k)
    ensures var top := stack[|stack| - 1]; top < k && Pair(s, top, k)
  {
    assert Waits(s, stack[|stack| - 1], k, 0);
  }

  /** One character further, a waiting brace waits on unless its partner was read. */
  lemma WaitsOn(s: string, i: nat, k: nat, depth: int)
    requires k < |s| && i < k
    ensures var step := if Opens(s, k) then 1 else if Closes(s, k) then -1 else 0;
            Waits(s, i, k + 1, depth) <==> Waits(s, i, k, depth - step) && depth >= 0
  {
    assert NeverBelow(s, i + 1, k + 1) <==> NeverBelow(s, i + 1, k) && Depth(s, i + 1, k + 1) >= 0;
  }

  lemma PushKeeps(s: string, k: nat, stack: seq<nat>)
    requires k < |s| && StackOk(s, k, stack) && Opens(s, k)
    ensures StackOk(s, k + 1, stack + [k])
  {
    var k', stack' := k + 1, stack + [k];
    forall t | 0 <= t < |stack'| ensures Waits(s, stack'[t], k', |stack'| - 1 - t) {
      if t < |stack| {
        assert Waits(s, stack[t], k, |stack| - 1 - t);
        WaitsOn(s, stack[t], k, |stack'| - 1 - t);
      }
    }
    forall i: nat, d: int | Waits(s, i, k', d) ensures i in stack' {
      if i < k {
        WaitsOn(s, i, k, d);
        assert i in stack;
      }
    }
  }

  lemma PopKeeps(s: string, k: nat, stack: seq<nat>)
    requires k < |s| && StackOk(s, k, stack) && Closes(s, k)
    ensures StackOk(s, k + 1, if stack == [] then [] else stack[..|stack| - 1])
  {
    var k', stack' := k + 1, if stack == [] then [] else stack[..|stack| - 1];
    forall t | 0 <= t < |stack'| ensures Waits(s, stack'[t], k', |stack'| - 1 - t) {
      assert Waits(s, stack[t], k, |stack| - 1 - t);
      WaitsOn(s, stack[t], k, |stack| - 2 - t);
    }
    forall i: nat, d: int | Waits(s, i, k', d) ensures i in stack' {
      if i < k {
        WaitsOn(s, i, k, d);
        PopKeepsOne(s, k, stack, i, d);
      }
    }
  }

  /** A brace that waits with others open behind it is not on top. */
  lemma PopKeepsOne(s: string, k: nat, stack: seq<nat>, i: nat, d: int)
    requires k < |s| && StackOk(s, k, stack) && Waits(s, i, k, d + 1) && d >= 0
    ensures stack != [] && i in stack[..|stack| - 1]
  {
    assert i in stack;
    var t :| 0 <= t < |stack| && stack[t] == i;
    assert Waits(s, stack[t], k, |stack| - 1 - t);
    assert stack[..|stack| - 1][t] == i;
  }

  lemma SkipKeeps(s: string, k: nat, stack: seq<nat>)
    requires k < |s| && StackOk(s, k, stack) && !Opens(s, k) && !Closes(s, k)
    ensures StackOk(s, k + 1, stack)
  {
    var k' := k + 1;
    forall t | 0 <= t < |stack| ensures Waits(s, stack[t], k', |stack| - 1 - t) {
      assert Waits(s, stack[t], k, |stack| - 1 - t);
      WaitsOn(s, stack[t], k, |stack| - 1 - t);
    }
    forall i: nat, d: int | Waits(s, i, k', d) ensures i in stack {
      if i < k {
        WaitsOn(s, i, k, d);
        assert i in stack;
      }
    }
  }

  /** A position that closes no variable adds none to the report. */
  lemma ReportsSkip(s: string, k: nat, found: seq<Found>)
    requires Reports(s, k, found) && k < |s|
    requires forall i: nat | i < k :: !Pair(s, i, k) || ':' in s[i + 1..k]
    ensures Reports(s, k + 1, found)
  {
  }

  lemma ReportsAdd(s: string, k: nat, found: seq<Found>, i: nat)
    requires Reports(s, k, found) && i < k < |s| && Pair(s, i, k) && ':' !in s[i + 1..k]
    requires forall j: nat | j < k && Pair(s, j, k) :: j == i
    ensures Reports(s, k + 1, found + [Found(k, s[i + 1..k])])
  {
    var all := found + [Found(k, s[i + 1..k])];
    forall f: Found | f.close < k + 1 && IsVariable(s, f) ensures f in all {
      if f.close < k { assert f in found; }
    }
  }

  /** What the loop knows before position `k`. */
  ghost predicate Scanned(s: string, k: nat, stack: seq<nat>, found: seq<Found>)
    requires k <= |s|
  {
    StackOk(s, k, stack) && Reports(s, k, found)
  }

  lemma ScanOther(s: string, k: nat, stack: seq<nat>, found: seq<Found>)
    requires k < |s| && Scanned(s, k, stack, found) && !Opens(s, k) && !Closes(s, k)
    ensures Scanned(s, k + 1, stack, found)
  {
    SkipKeeps(s, k, stack);
    ReportsSkip(s, k, found);
  }

  lemma ScanOpening(s: string, k: nat, stack: seq<nat>, found: seq<Found>)
    requires k < |s| && Scanned(s, k, stack, found) && Opens(s, k)
    ensures Scanned(s, k + 1, stack + [k], found)
  {
    PushKeeps(s, k, stack);
    ReportsSkip(s, k, found);
  }

  /** A closing brace without a partner. */
  lemma ScanUnmatched(s: string, k: nat, found: seq<Found>)
    requires k < |s| && Scanned(s, k, [], found) && Closes(s, k)
    ensures Scanned(s, k + 1, [], found)
  {
    PopKeeps(s, k, []);
    forall j: nat | j < k ensures !Pair(s, j, k) {
      if Pair(s, j, k) { PartnerIsTop(s, k, [], j); }
    }
    ReportsSkip(s, k, found);
  }

  lemma ScanClosing(s: string, k: nat, stack: seq<nat>, found: seq<Found>)
    requires k < |s| && Scanned(s, k, stack, found) && stack != [] && Closes(s, k)
    ensures var top := stack[|stack| - 1];
            && top < k
            && Scanned(s, k + 1, stack[..|stack| - 1],
                       if ':' in s[top + 1..k] then found else found + [Found(k, s[top + 1..k])])
  {
    var top := stack[|stack| - 1];
    TopIsPartner(s, k, stack);
    forall j: nat | j < k && Pair(s, j, k) ensures j == top { PartnerIsTop(s, k, stack, j); }
    PopKeeps(s, k, stack);
    if ':' in s[top + 1..k] {
      ReportsSkip(s, k, found);
    } else {
      ReportsAdd(s, k, found, top);
    }
  }

  function Texts(found: seq<Found>): seq<string> {
    if found == [] then [] else Texts(found[..|found| - 1]) + [found[|found| - 1].text]
  }

  lemma TextsPush(found: seq<Found>, f: Found)
    ensures Texts(found + [f]) == Texts(found) + [f.text]
  {
    assert (found + [f])[..|found|] == found;
  }

  /** The texts of a full report, in order. */
  ghost predicate AreVariables(s: string, texts: seq<string>) {
    exists found: seq<Found> :: Reports(s, |s|, found) && texts == Texts(found)
  }

  /** `getInputVariables`. */
  method GetInputVariables(paramValue: string) returns (inputVariables: seq<string>)
    ensures AreVariables(paramValue, inputVariables)
  {
    var s := paramValue;
    var variableStack: seq<nat> := [];
    ghost var found: seq<Found> := [];
    inputVariables := [];
    var startIdx := 0;
    var endIdx := |s|;
    while startIdx < endIdx
      invariant startIdx <= endIdx == |s|
      invariant startIdx < |s| && (s[startIdx] == '{' || s[startIdx] == '}') && startIdx > 0 ==> s[startIdx - 1] != '\\'
      invariant Scanned(s, startIdx, variableStack, found)
      invariant inputVariables == Texts(found)
    {
      if s[startIdx] == '\\' && startIdx + 1 < |s| && (s[startIdx + 1] == '{' || s[startIdx + 1] == '}') {
        ScanOther(s, startIdx, variableStack, found);
        ScanOther(s, startIdx + 1, variableStack, found);
        startIdx := startIdx + 2;
        continue;
      }
      if s[startIdx] == '{' {
        ScanOpening(s, startIdx, variableStack, found);
        variableStack := variableStack + [startIdx];
      } else if s[startIdx] == '}' && |variableStack| > 0 {
        ScanClosing(s, startIdx, variableStack, found);
        var variableFullPath := s[variableStack[|variableStack| - 1] + 1..startIdx];
        variableStack := variableStack[..|variableStack| - 1];
        if ':' !in variableFullPath {
          TextsPush(found, Found(startIdx, variableFullPath));
          inputVariables := inputVariables + [variableFullPath];
          found := found + [Found(startIdx, variableFullPath)];
        }
      } else if s[startIdx] == '}' {
        ScanUnmatched(s, startIdx, found);
      } else {
        ScanOther(s, startIdx, variableStack, found);
      }
      startIdx := startIdx + 1;
    }
  }

  /** The variables are determined by the text alone. */
  lemma VariablesUnique(s: string, a: seq<string>, b: seq<string>)
    requires AreVariables(s, a) && AreVariables(s, b)
    ensures a == b
  {
    var f :| Reports(s, |s|, f) && a == Texts(f);
    var g :| Reports(s, |s|, g) && b == Texts(g);
    ReportsUnique(s, f, g);
  }

  lemma ReportsUnique(s: string, a: seq<Found>, b: seq<Found>)
    requires Reports(s, |s|, a) && Reports(s, |s|, b)
    ensures a == b
  {
    SameClosesSameText(s, a, b);
    SortedSameSet(a, b);
  }

  lemma SameClosesSameText(s: string, a: seq<Found>, b: seq<Found>)
    requires Reports(s, |s|, a) && Reports(s, |s|, b)
    ensures forall f: Found :: f in a <==> f in b
  {
  }

  lemma {:induction false} SortedSameSet(a: seq<Found>, b: seq<Found>)
    requires forall i, j | 0 <= i < j < |a| :: a[i].close < a[j].close
    requires forall i, j | 0 <= i < j < |b| :: b[i].close < b[j].close
    requires forall f: Found :: f in a <==> f in b
    ensures a == b
  {
    assert (a != [] ==> a[0] in b) && (b != [] ==> b[0] in a);
    if a != [] {
      var x, y := a[|a| - 1], b[|b| - 1];
      assert x in b && y in a;
      assert x == y;
      var a', b' := a[..|a| - 1], b[..|b| - 1];
      forall f: Found ensures f in a' <==> f in b' {
        assert f in a <==> f in a' || f == x;
        assert f in b <==> f in b' || f == y;
        assert x !in a' && y !in b';
      }
      SortedSameSet(a', b');
      assert a == a' + [x] && b == b' + [y];
    }
  }
}
