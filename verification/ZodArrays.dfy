/**
  Arrays around an object with modifiers. The parser has no place for these modifiers: it captures
  the content of the object greedily, up to the last closing brace and parenthesis of the text.
 */
module ZodArrays {
  import opened Common
  import opened ZodText
  import opened ZodParser
  import opened ZodPrinter
  import opened ZodRoundTrip

  // ---------- modifiers without object literals hold no brace ----------

  predicate BraceFree(d: Doc) {
    match d
    case Chars(s) => '}' !in s
    case Quoted(_) => true
    case Group(_, inner, close) => close != '}' && BraceFree(inner)
    case Cat(a, b) => BraceFree(a) && BraceFree(b)
  }

  lemma {:induction false} BraceFreeFlat(d: Doc)
    requires BraceFree(d) && WellNested(d)
    ensures '}' !in Flat(d)
    decreases d
  {
    match d
    case Chars(s) =>
    case Quoted(s) =>
    case Group(open, inner, _) => BraceFreeFlat(inner);
    case Cat(a, b) => BraceFreeFlat(a); BraceFreeFlat(b);
  }

  lemma {:induction false} BraceFreeItems(items: seq<string>)
    ensures BraceFree(Join(QuotedDocs(items)))
  {
    if items != [] {
      BraceFreeItems(items[1..]);
      assert QuotedDocs(items)[1..] == QuotedDocs(items[1..]);
    }
  }

  lemma PlainHasNoBrace(s: string)
    requires forall i | 0 <= i < |s| :: Plain(s[i])
    ensures '}' !in s
  {
  }

  lemma BraceFreeValue(a: Arg)
    requires PrintableValue(a)
    ensures BraceFree(ValueDoc(a))
  {
    match a
    case Num(n) =>
      DigitsPrinted(n);
      PlainHasNoBrace(PrintNat(n));
    case Str(_) =>
    case List(items) => BraceFreeItems(items);
  }

  lemma {:induction false} BraceFreeArgs(args: seq<Arg>)
    requires PrintableEach(args, false)
    ensures BraceFree(ArgsDoc(args))
  {
    if args != [] {
      EachBehind(args, false);
      BraceFreeValue(args[0]);
      BraceFreeArgs(args[1..]);
      assert ArgDocs(args)[1..] == ArgDocs(args[1..]);
    }
  }

  lemma {:induction false} BraceFreeMods(mods: seq<Modifier>)
    requires PrintableMods(mods, true, false)
    ensures BraceFree(ModsDoc(mods))
  {
    if mods != [] {
      var name, args := mods[0].name, mods[0].args;
      WordsArePlain(name);
      PlainHasNoBrace(name);
      BraceFreeArgs(args);
      assert BraceFree(Group('(', ArgsDoc(args), ')'));
      assert BraceFree(CallDoc(name, args));
      BraceFreeMods(mods[1..]);
    }
  }

  /** What decides: whether the printed modifiers of the object hold a closing brace. */
  predicate NoBrace(inner: Option<seq<Modifier>>) {
    '}' !in Flat(TailDoc(inner))
  }

  lemma WithoutLiterals(inner: Option<seq<Modifier>>)
    requires PrintableTail(inner, false)
    ensures NoBrace(inner)
  {
    if inner.Some? {
      BraceFreeMods(inner.value);
      ModsWellNested(inner.value, true, false);
      BraceFreeFlat(ModsDoc(inner.value));
    }
  }

  // ---------- without a brace the modifiers are dropped ----------

  lemma ModifiedObjectZed(props: seq<Prop>, inner: Option<seq<Modifier>>)
    requires PrintableProps(props, true) && PrintableTail(inner, true)
    ensures Zed(SchemaDoc(Nested(props, inner)))
  {
    ObjectZed(props, true);
    ZedTail(ObjectDoc(props), inner, true);
  }

  lemma GoodArray(s: Schema, props: seq<Prop>, mods: Option<seq<Modifier>>)
    requires Zed(SchemaDoc(s)) && PrintableTail(mods, false)
    requires var part := "z.array" + (['('] + Print(s) + [')']); Z_ARRAY <= part && ParseArray(part) == Ok(ArrayOfObjects(props, None))
    ensures ParseZodType(Print(SimpleArray(s, mods))) == Ok(ArrayOfObjects(props, mods))
  {
    ParsePrintedArray(SchemaDoc(s), mods);
  }

  lemma ModifiedObjectTrimmed(props: seq<Prop>, inner: Option<seq<Modifier>>)
    requires PrintableProps(props, true) && PrintableTail(inner, true)
    ensures Print(Nested(props, inner)) != "" && Trimmed(Print(Nested(props, inner)))
  {
    ModifiedObjectZed(props, inner);
    ZedPiece(SchemaDoc(Nested(props, inner)));
  }

  lemma ParseModifiedObjects(props: seq<Prop>, inner: Option<seq<Modifier>>)
    requires PrintableProps(props, true) && PrintableTail(inner, true) && NoBrace(inner)
    ensures var t := Print(Nested(props, inner));
            var part := "z.array" + (['('] + t + [')']);
            Z_ARRAY <= part && ParseArray(part) == Ok(ArrayOfObjects(props, None))
  {
    var t, m, p := Print(Nested(props, inner)), Flat(TailDoc(inner)), Flat(Join(PropDocs(props)));
    ModifiedObjectZed(props, inner);
    PrintedNested(props, inner);
    ContentOfArray(t);
    ContentBefore(p, m);
    PropsRoundTrip(props, true);
    PropsValidate(props);
    UnfoldArrayOfObjects("z.array" + (['('] + t + [')']), t, p, props);
  }

  /**
    Without a closing brace in the modifiers of the object, the parser reads an array of objects
    and drops them: this text comes back unchanged only if there were none.
   */
  lemma InnerModifiersDropped(props: seq<Prop>, inner: Option<seq<Modifier>>, mods: Option<seq<Modifier>>)
    requires PrintableProps(props, true) && PrintableTail(inner, true) && NoBrace(inner) && PrintableTail(mods, false)
    ensures ParseZodType(Print(SimpleArray(Nested(props, inner), mods))) == Ok(ArrayOfObjects(props, mods))
    ensures Print(ArrayOfObjects(props, mods)) == Print(SimpleArray(Nested(props, inner), mods)) <==> inner == None
  {
    ModifiedObjectZed(props, inner);
    ParseModifiedObjects(props, inner);
    GoodArray(Nested(props, inner), props, mods);
    TextsDiffer(props, inner, mods);
  }

  lemma TextsDiffer(props: seq<Prop>, inner: Option<seq<Modifier>>, mods: Option<seq<Modifier>>)
    requires PrintableTail(inner, true)
    ensures Print(ArrayOfObjects(props, mods)) == Print(SimpleArray(Nested(props, inner), mods)) <==> inner == None
  {
    var o, m := Flat(ObjectDoc(props)), Flat(TailDoc(inner));
    PrintedArray(ObjectDoc(props), mods);
    PrintedArray(SchemaDoc(Nested(props, inner)), mods);
    assert Flat(SchemaDoc(Nested(props, inner))) == o + m;
    if inner.Some? {
      ModsTextOf(inner.value);
      assert |m| > 0;
    } else {
      assert o + m == o;
    }
  }

  // ---------- with a brace the capture runs into the modifiers ----------

  lemma {:induction false} ModsConcat(a: seq<Modifier>, b: seq<Modifier>)
    ensures Flat(ModsDoc(a + b)) == Flat(ModsDoc(a)) + Flat(ModsDoc(b))
  {
    if a == [] {
      assert a + b == b;
      assert "" + Flat(ModsDoc(b)) == Flat(ModsDoc(b));
    } else {
      ModsConcat(a[1..], b);
      assert (a + b)[1..] == a[1..] + b && (a + b)[0] == a[0];
      ModsTextOf(a);
      ModsTextOf(a + b);
      CallAndRest(CallText(a[0].name, a[0].args), Flat(ModsDoc(a[1..])), Flat(ModsDoc(b)));
    }
  }

  lemma CallAndRest(c: string, m: string, rest: string)
    ensures ['.'] + (c + (m + rest)) == (['.'] + (c + m)) + rest
  {
  }

  /** Arguments that are printable only with literals are one literal. */
  lemma OnlyLiteral(args: seq<Arg>) returns (fs: seq<Field>)
    requires PrintableArgs(args, true) && !PrintableArgs(args, false)
    ensures args == [Literal(fs)] && PrintableFields(fs)
  {
    var i :| 0 <= i < |args| && !PrintableArg(args[i], false);
    assert PrintableArg(args[i], true) && !Scalar(args[i]);
    assert args == [args[i]];
    fs := args[i].fields;
  }

  /** Only an object literal brings a brace, and it is the only argument of its modifier. */
  lemma BraceInCall(m: Modifier) returns (fs: seq<Field>)
    requires AllWord(m.name) && PrintableArgs(m.args, true) && '}' in CallText(m.name, m.args)
    ensures m.args == [Literal(fs)] && PrintableFields(fs)
  {
    if !PrintableArgs(m.args, false) {
      fs := OnlyLiteral(m.args);
    } else {
      BraceFreeArgs(m.args);
      ArgsOk(m.args, false);
      BraceFreeFlat(ArgsDoc(m.args));
      WordsArePlain(m.name);
      PlainHasNoBrace(m.name);
      assert false;
    }
  }

  /** The last modifier with an object literal. */
  lemma {:induction false} LastLiteral(mods: seq<Modifier>) returns (k: nat, fs: seq<Field>)
    requires PrintableMods(mods, true, true) && '}' in Flat(ModsDoc(mods))
    ensures k < |mods| && mods[k].args == [Literal(fs)] && PrintableFields(fs)
    ensures '}' !in Flat(ModsDoc(mods[k + 1..]))
  {
    if '}' in Flat(ModsDoc(mods[1..])) {
      k, fs := LastLiteral(mods[1..]);
      assert mods[1..][k + 1..] == mods[k + 2..];
      k := k + 1;
    } else {
      ModsTextOf(mods);
      fs := BraceInCall(mods[0]);
      k := 0;
    }
  }

  /** The part of the modifiers that is captured: up to the closing brace of the last literal. */
  function Swallowed(front: seq<Modifier>, name: string, fs: seq<Field>): string {
    Flat(ModsDoc(front)) + (['.'] + (name + ("({" + Flat(Join(FieldDocs(fs))))))
  }

  lemma LiteralCall(name: string, fs: seq<Field>)
    ensures CallText(name, [Literal(fs)]) == (name + ("({" + Flat(Join(FieldDocs(fs))))) + "})"
  {
    ArgsTextOne([Literal(fs)]);
    var l := Flat(Join(FieldDocs(fs)));
    assert ArgsText([Literal(fs)]) == ['('] + (['{'] + l + ['}']) + [')'];
  }

  lemma SwallowedOf(mods: seq<Modifier>, k: nat, fs: seq<Field>)
    requires k < |mods| && mods[k].args == [Literal(fs)]
    ensures Flat(ModsDoc(mods)) == Swallowed(mods[..k], mods[k].name, fs) + ("})" + Flat(ModsDoc(mods[k + 1..])))
  {
    var c := mods[k].name + ("({" + Flat(Join(FieldDocs(fs))));
    assert mods == mods[..k] + mods[k..] && mods[k..][1..] == mods[k + 1..];
    ModsConcat(mods[..k], mods[k..]);
    ModsTextOf(mods[k..]);
    LiteralCall(mods[k].name, fs);
    Regroup(Flat(ModsDoc(mods[..k])), c, Flat(ModsDoc(mods[k + 1..])));
  }

  /** A brace comes with an object literal, and only so. */
  lemma BraceIsLiteral(inner: Option<seq<Modifier>>)
    requires PrintableTail(inner, true)
    ensures NoBrace(inner) <==> PrintableTail(inner, false)
  {
    if PrintableTail(inner, false) {
      WithoutLiterals(inner);
    } else {
      var mods := inner.value;
      var k :| 0 <= k < |mods| && !PrintableArgs(mods[k].args, false);
      var fs := OnlyLiteral(mods[k].args);
      SwallowedOf(mods, k, fs);
      assert (Swallowed(mods[..k], mods[k].name, fs) + ("})" + Flat(ModsDoc(mods[k + 1..]))))[|Swallowed(mods[..k], mods[k].name, fs)|] == '}';
    }
  }

  lemma Regroup(a: string, c: string, m: string)
    ensures a + (['.'] + ((c + "})") + m)) == (a + (['.'] + c)) + ("})" + m)
  {
  }

  /** The greedy capture ends before the last closing brace and parenthesis. */
  lemma ContentBeyond(p: string, x: string, m: string)
    requires '}' !in m
    ensures ObjectContent("z.object" + (ObjectGroup(p) + (x + ("})" + m)))) == Some(p + ("})" + x))
  {
    ContentBefore(p + ("})" + x), m);
    assert ObjectGroup(p) + (x + ("})" + m)) == ObjectGroup(p + ("})" + x)) + m;
  }

  /** Exactly then the capture is the properties of the object. */
  lemma CapturedExactly(props: seq<Prop>, inner: Option<seq<Modifier>>)
    requires PrintableTail(inner, true)
    ensures ObjectContent(Print(Nested(props, inner))) == Some(Flat(Join(PropDocs(props)))) <==> NoBrace(inner)
  {
    var p, m := Flat(Join(PropDocs(props))), Flat(TailDoc(inner));
    PrintedNested(props, inner);
    if NoBrace(inner) {
      ContentBefore(p, m);
    } else {
      var front, name, fs := CapturedWithBrace(props, inner);
    }
  }

  /** With a brace the capture is longer: it goes on up to the closing brace of the last literal. */
  lemma CapturedWithBrace(props: seq<Prop>, inner: Option<seq<Modifier>>)
    returns (front: seq<Modifier>, name: string, fs: seq<Field>)
    requires PrintableTail(inner, true) && !NoBrace(inner)
    ensures PrintableMods(front, true, true) && AllWord(name) && PrintableFields(fs)
    ensures ObjectContent(Print(Nested(props, inner)))
            == Some(Flat(Join(PropDocs(props))) + ("})" + Swallowed(front, name, fs)))
  {
    var k: nat;
    k, fs := LastLiteral(inner.value);
    front, name := inner.value[..k], inner.value[k].name;
    SwallowedOf(inner.value, k, fs);
    ContentBeyond(Flat(Join(PropDocs(props))), Swallowed(front, name, fs), Flat(ModsDoc(inner.value[k + 1..])));
    PrintedNested(props, inner);
  }

  // ---------- where the capture ends inside a literal ----------

  /** A part between dots that is no call: its parentheses do not end. */
  predicate Broken(b: string) {
    && '.' !in b && Trimmed(b) && MatchCall(b).None?
    && b != "" && b[|b| - 1] != ')'
  }

  /** A call cut off inside the brackets of its argument. */
  lemma BrokenCall(name: string, open: char, t: string)
    requires AllWord(name) && (open == '[' || open == '{') && QuietText(t)
    requires t != "" ==> t[|t| - 1] != ')' && !IsSpace(t[|t| - 1])
    ensures Broken(name + (['('] + ([open] + t)))
  {
    var rest := ['('] + ([open] + t);
    var b := name + rest;
    WordsArePlain(name);
    WordLengthOf(name, rest);
    assert b[0] == name[0];
    assert b[|b| - 1] == if t == "" then open else t[|t| - 1];
    forall i | 0 <= i < |b| ensures b[i] != '.' {
      if i >= |name| + 2 { assert b[i] == t[i - |name| - 2]; }
    }
    assert b[|name|..] == rest;
    assert rest[|rest| - 1] == b[|b| - 1];
  }

  lemma {:induction false} SplitOnLast(a: string, c: char, b: string)
    requires c !in b
    ensures SplitOn(a + [c] + b, c) == SplitOn(a, c) + [b]
  {
    if a == "" {
      assert a + [c] + b == [c] + b;
      assert ([c] + b)[1..] == b;
      SplitOnNone(b, c);
    } else {
      assert (a + [c] + b)[1..] == a[1..] + [c] + b;
      SplitOnLast(a[1..], c, b);
    }
  }

  lemma {:induction false} BaseModifiersFail(parts: seq<string>, k: nat)
    requires k < |parts| && MatchCall(Trim(parts[k])).None?
    ensures BaseModifiers(parts).Err?
    decreases k
  {
    if k > 0 {
      BaseModifiersFail(parts[1..], k - 1);
    }
  }

  lemma {:induction false} ArrayModifiersFail(parts: seq<string>, k: nat)
    requires k < |parts| && MatchCall(parts[k]).None?
    ensures ArrayModifiers(parts).Err?
    decreases k
  {
    if k == 0 {
      assert ArrayModifier(parts[0]).Err?;
    } else {
      ArrayModifiersFail(parts[1..], k - 1);
      RestFails(parts);
    }
  }

  lemma RestFails(parts: seq<string>)
    requires parts != [] && ArrayModifiers(parts[1..]).Err?
    ensures ArrayModifiers(parts).Err?
  {
  }

  lemma BrokenBase(a: string, b: string)
    requires '.' in a && Broken(b)
    ensures ParseBase(a + ['.'] + b).Err?
  {
    var parts := SplitOn(a, '.') + [b];
    SplitOnLast(a, '.', b);
    SplitCount(a, '.');
    CountOf(a, '.');
    TrimKeeps(b);
    BaseModifiersFail(parts[2..], |parts| - 3);
  }

  /** Behind any dot before the last part, this part is still the last. */
  lemma LastPart(a: string, b: string, end: nat)
    requires Broken(b) && end < |a + ['.'] + b| && (a + ['.'] + b)[end] == '.'
    ensures var parts := SplitOn((a + ['.'] + b)[end + 1..], '.'); parts[|parts| - 1] == b
  {
    var s := a + ['.'] + b;
    if end == |a| {
      assert s[end + 1..] == b;
      SplitOnNone(b, '.');
    } else if end < |a| {
      assert s[end + 1..] == a[end + 1..] + ['.'] + b;
      SplitOnLast(a[end + 1..], '.', b);
    }
  }

  lemma FailingExtract(s: string)
    requires Z_ARRAY <= s && !(Z_OBJECT <= s) && ExtractArray(s).Err?
    ensures ParseZodType(s).Err?
  {
  }

  lemma FailingContent(s: string)
    requires Z_ARRAY <= s && !(Z_OBJECT <= s) && ExtractArray(s) == Ok(Extract(s, None)) && ArrayContent(s).None?
    ensures ParseZodType(s).Err?
  {
  }

  /** The modifiers behind an array, if it has any, end in the last part. */
  lemma BrokenExtract(s: string, end: nat)
    requires Z_ARRAY <= s && CloseAt(s[7..], 0, 7) == Some(end) && end < |s| && s[end] == '.'
    requires ArrayModifiers(SplitOn(s[end + 1..], '.')).Err?
    ensures ExtractArray(s).Err?
  {
  }

  lemma BrokenContent(a: string, b: string)
    requires Z_ARRAY <= a + ['.'] + b && Broken(b)
    ensures ArrayContent(a + ['.'] + b).None?
  {
    var s := a + ['.'] + b;
    assert s[|s| - 1] == b[|b| - 1];
  }

  lemma BrokenArray(a: string, b: string)
    requires Z_ARRAY <= a + ['.'] + b && !(Z_OBJECT <= a + ['.'] + b) && Broken(b)
    ensures ParseZodType(a + ['.'] + b).Err?
  {
    var s := a + ['.'] + b;
    var end := CloseAt(s[7..], 0, 7);
    if end.Some? && end.value < |s| && s[end.value] == '.' {
      LastPart(a, b, end.value);
      var parts := SplitOn(s[end.value + 1..], '.');
      ArrayModifiersFail(parts, |parts| - 1);
      BrokenExtract(s, end.value);
      FailingExtract(s);
    } else {
      BrokenContent(a, b);
      FailingContent(s);
    }
  }

  /** No type ends in a broken part, unless it starts with an object. */
  lemma BrokenType(a: string, b: string)
    requires !(Z_OBJECT <= a + ['.'] + b) && '.' in a && Broken(b)
    ensures ParseZodType(a + ['.'] + b).Err?
  {
    if Z_ARRAY <= a + ['.'] + b {
      BrokenArray(a, b);
    } else {
      BrokenBase(a, b);
    }
  }

  /** An item of a list or a field of a literal: it has no dot and does not end with a parenthesis. */
  predicate Item(d: Doc) {
    Piece(d) && QuietText(Flat(d)) && Flat(d)[|Flat(d)| - 1] != ')'
  }

  lemma ValueItem(a: Arg)
    requires PrintableValue(a)
    ensures Item(ValueDoc(a))
  {
    ValuePiece(a);
    QuietFlat(ValueDoc(a));
    match a
    case Num(n) =>
      NatRoundTrip(n);
      assert IsDigit(PrintNat(n)[|PrintNat(n)| - 1]);
    case Str(_) =>
    case List(_) =>
  }

  lemma FieldItem(f: Field)
    requires AllWord(f.key) && PrintableValue(f.value)
    ensures Item(FieldDoc(f))
  {
    var v := ValueDoc(f.value);
    ValueItem(f.value);
    ValuePiece(f.value);
    KeyedPiece(f.key, v);
    WordsArePlain(f.key);
    QuietFlat(FieldDoc(f));
    var t := (f.key + ": ") + Flat(v);
    assert t[|t| - 1] == Flat(v)[|Flat(v)| - 1];
  }

  /** The brackets of a list or a literal and the pieces between them. */
  function Bracket(a: Arg): char {
    if a.Literal? then '{' else '['
  }

  function CloseBracket(a: Arg): char {
    if a.Literal? then '}' else ']'
  }

  function Items(a: Arg): seq<Doc> {
    match a
    case List(items) => QuotedDocs(items)
    case Literal(fs) => FieldDocs(fs)
    case _ => []
  }

  lemma ItemsOk(a: Arg)
    requires PrintableArg(a, true)
    ensures Pieces(Items(a)) && (Items(a) != [] ==> Item(Items(a)[0]))
    ensures a.List? || a.Literal? ==> ArgDoc(a) == Group(Bracket(a), Join(Items(a)), CloseBracket(a))
  {
    match a
    case List(items) =>
      QuotedPieces(items);
      if items != [] { ValueItem(Str(items[0])); }
    case Literal(fs) =>
      FieldPieces(fs);
      if fs != [] { FieldItem(fs[0]); }
    case _ =>
  }

  /** Two levels below zero, the two brackets of a call and its argument bring the depth back to zero. */
  lemma ScanHead(name: string, open: char, rest: string, cur: string)
    requires AllWord(name) && (open == '[' || open == '{')
    ensures var head := ['.'] + (name + (['('] + [open]));
            Scan(head + rest, cur, -2, Out) == Scan(rest, cur + head, 0, Out)
  {
    WordsArePlain(name);
    var dotted := ['.'] + name;
    forall i | 0 <= i < |dotted| ensures Plain(dotted[i]) { if i > 0 { assert dotted[i] == name[i - 1]; } }
    assert (['.'] + (name + (['('] + [open]))) + rest == dotted + (['('] + ([open] + rest));
    ScanPlain(dotted, ['('] + ([open] + rest), cur, -2);
    ScanOne('(', [open] + rest, cur + dotted, -2, Out);
    ScanOne(open, rest, cur + dotted + ['('], -1, Out);
    assert cur + dotted + ['('] + [open] == cur + (['.'] + (name + (['('] + [open])));
  }

  /** At depth zero the items are cut at the first comma between them. */
  lemma ScanItemsCut(ds: seq<Doc>, rest: string, cur: string)
    requires Pieces(ds) && |ds| >= 2
    ensures Trim(cur + Flat(ds[0])) in Scan(Flat(Join(ds)) + rest, cur, 0, Out)
  {
    var t, r := Flat(ds[0]), Flat(Join(ds[1..]));
    assert Flat(Cat(Chars(", "), Join(ds[1..]))) == ", " + r;
    assert (t + (", " + r)) + rest == t + ([','] + ([' '] + (r + rest)));
    ScanDoc(ds[0], [','] + ([' '] + (r + rest)), cur, 0);
    ScanCut([' '] + (r + rest), cur + t);
  }

  lemma ScanItemsPass(ds: seq<Doc>, rest: string, cur: string)
    requires Pieces(ds) && |ds| <= 1
    ensures Scan(Flat(Join(ds)) + rest, cur, 0, Out) == Scan(rest, cur + Flat(Join(ds)), 0, Out)
  {
    ScanDoc(Join(ds), rest, cur, 0);
  }

  /** A modifier with its dot. */
  function Dotted(name: string, args: seq<Arg>): string {
    ['.'] + CallText(name, args)
  }

  /** A call cut off in its first item, or behind its bracket if it has none. */
  function CutCall(name: string, a: Arg): string {
    name + (['('] + ([Bracket(a)] + if Items(a) == [] then "" else Flat(Items(a)[0])))
  }

  lemma CutCallBroken(name: string, a: Arg)
    requires AllWord(name) && PrintableArg(a, true)
    ensures Broken(CutCall(name, a))
  {
    ItemsOk(a);
    BrokenCall(name, Bracket(a), if Items(a) == [] then "" else Flat(Items(a)[0]));
  }

  lemma GroupCallText(name: string, a: Arg, rest: string)
    requires PrintableArg(a, true) && (a.List? || a.Literal?)
    ensures Dotted(name, [a]) + rest
            == (['.'] + (name + (['('] + [Bracket(a)]))) + (Flat(Join(Items(a))) + ([CloseBracket(a)] + ([')'] + rest)))
  {
    ItemsOk(a);
    ArgsTextOne([a]);
    var l := Flat(Join(Items(a)));
    assert ArgsText([a]) == ['('] + ([Bracket(a)] + l + [CloseBracket(a)]) + [')'];
    GroupCallRegroup(name, Bracket(a), l, CloseBracket(a), rest);
  }

  lemma GroupCallRegroup(name: string, open: char, l: string, close: char, rest: string)
    ensures (['.'] + (name + (['('] + ([open] + l + [close]) + [')']))) + rest
            == (['.'] + (name + (['('] + [open]))) + (l + ([close] + ([')'] + rest)))
  {
  }

  lemma CutCallRegroup(cur: string, name: string, open: char, t: string)
    ensures (cur + (['.'] + (name + (['('] + [open])))) + t == cur + (['.'] + (name + (['('] + ([open] + t))))
  {
  }

  /** A list or literal of several items is cut, and the first piece ends inside it. */
  lemma ScanGroupCut(name: string, a: Arg, rest: string, cur: string)
    requires AllWord(name) && PrintableArg(a, true) && (a.List? || a.Literal?) && |Items(a)| >= 2
    ensures Trim(cur + (['.'] + CutCall(name, a))) in Scan(Dotted(name, [a]) + rest, cur, -2, Out)
  {
    var head := ['.'] + (name + (['('] + [Bracket(a)]));
    var more := [CloseBracket(a)] + ([')'] + rest);
    ItemsOk(a);
    GroupCallText(name, a, rest);
    ScanHead(name, Bracket(a), Flat(Join(Items(a))) + more, cur);
    ScanItemsCut(Items(a), more, cur + head);
    CutCallRegroup(cur, name, Bracket(a), Flat(Items(a)[0]));
  }

  /** One of at most one item is passed. */
  lemma ScanGroupPass(name: string, a: Arg, rest: string, cur: string)
    requires AllWord(name) && PrintableArg(a, true) && (a.List? || a.Literal?) && |Items(a)| <= 1
    ensures Scan(Dotted(name, [a]) + rest, cur, -2, Out) == Scan(rest, cur + Dotted(name, [a]), -2, Out)
  {
    var head := ['.'] + (name + (['('] + [Bracket(a)]));
    var l := Flat(Join(Items(a)));
    ItemsOk(a);
    GroupCallText(name, a, rest);
    ScanHead(name, Bracket(a), l + ([CloseBracket(a)] + ([')'] + rest)), cur);
    ScanItemsPass(Items(a), [CloseBracket(a)] + ([')'] + rest), cur + head);
    ScanOne(CloseBracket(a), [')'] + rest, cur + head + l, 0, Out);
    ScanOne(')', rest, cur + head + l + [CloseBracket(a)], -1, Out);
    GroupCallText(name, a, "");
    PassRegroup(cur, head, l, [CloseBracket(a)], [')']);
    assert Dotted(name, [a]) + "" == Dotted(name, [a]);
  }

  lemma PassRegroup(cur: string, head: string, l: string, a: string, b: string)
    ensures (((cur + head) + l) + a) + b == cur + (head + (l + (a + (b + ""))))
  {
  }

  predicate GroupFree(d: Doc) {
    match d
    case Chars(_) => true
    case Quoted(_) => true
    case Group(_, _, _) => false
    case Cat(a, b) => GroupFree(a) && GroupFree(b)
  }

  /** Away from depth zero a comma cuts nothing. */
  lemma {:induction false} ScanGroupFree(d: Doc, rest: string, cur: string, depth: int)
    requires WellNested(d) && GroupFree(d) && depth != 0
    ensures Scan(Flat(d) + rest, cur, depth, Out) == Scan(rest, cur + Flat(d), depth, Out)
    decreases d
  {
    match d
    case Chars(s) => ScanPlain(s, rest, cur, depth);
    case Quoted(s) => ScanQuoted(s, rest, cur, depth);
    case Cat(a, b) =>
      FlatCat(Flat(a), Flat(b), rest, cur);
      ScanGroupFree(a, Flat(b) + rest, cur, depth);
      ScanGroupFree(b, rest, cur + Flat(a), depth);
  }

  predicate FlatArgs(args: seq<Arg>) {
    forall i | 0 <= i < |args| :: args[i].Num? || args[i].Str?
  }

  lemma {:induction false} FlatArgsGroupFree(args: seq<Arg>)
    requires FlatArgs(args)
    ensures GroupFree(ArgsDoc(args))
  {
    if args != [] {
      assert args[0].Num? || args[0].Str?;
      forall i | 0 <= i < |args[1..]| ensures args[1..][i].Num? || args[1..][i].Str? { assert args[1..][i] == args[i + 1]; }
      FlatArgsGroupFree(args[1..]);
      assert ArgDocs(args)[1..] == ArgDocs(args[1..]);
    }
  }

  /** A call of numbers and strings is passed. */
  lemma ScanFlatCall(name: string, args: seq<Arg>, rest: string, cur: string)
    requires AllWord(name) && PrintableArgs(args, true) && FlatArgs(args)
    ensures Scan(Dotted(name, args) + rest, cur, -2, Out) == Scan(rest, cur + Dotted(name, args), -2, Out)
  {
    var dotted, a := ['.'] + name, Flat(ArgsDoc(args));
    WordsArePlain(name);
    forall i | 0 <= i < |dotted| ensures Plain(dotted[i]) { if i > 0 { assert dotted[i] == name[i - 1]; } }
    ArgsOk(args, true);
    FlatArgsGroupFree(args);
    FlatCallRegroup(name, a, rest, cur);
    ScanPlain(dotted, ['('] + (a + ([')'] + rest)), cur, -2);
    ScanOne('(', a + ([')'] + rest), cur + dotted, -2, Out);
    ScanGroupFree(ArgsDoc(args), [')'] + rest, cur + dotted + ['('], -1);
    ScanOne(')', rest, cur + dotted + ['('] + a, -1, Out);
  }

  lemma FlatCallRegroup(name: string, a: string, rest: string, cur: string)
    ensures (['.'] + (name + (['('] + a + [')']))) + rest == (['.'] + name) + (['('] + (a + ([')'] + rest)))
    ensures (((cur + (['.'] + name)) + ['(']) + a) + [')'] == cur + (['.'] + (name + (['('] + a + [')'])))
  {
  }

  /** Arguments are numbers and strings, or one list or literal. */
  lemma ArgsKinds(args: seq<Arg>)
    requires PrintableArgs(args, true) && !FlatArgs(args)
    ensures |args| == 1 && args == [args[0]] && (args[0].List? || args[0].Literal?) && PrintableArg(args[0], true)
  {
    var i :| 0 <= i < |args| && !(args[i].Num? || args[i].Str?);
    assert !Scalar(args[i]);
  }

  lemma SwallowedNext(front: seq<Modifier>, name: string, fs: seq<Field>)
    requires front != []
    ensures Swallowed(front, name, fs) == Dotted(front[0].name, front[0].args) + Swallowed(front[1..], name, fs)
  {
    ModsTextOf(front);
    var c, m := CallText(front[0].name, front[0].args), Flat(ModsDoc(front[1..]));
    var l := ['.'] + (name + ("({" + Flat(Join(FieldDocs(fs)))));
    assert (['.'] + (c + m)) + l == (['.'] + c) + (m + l);
  }

  /** The last literal: its call is cut in the first field, at a comma or by the end of the text. */
  lemma ScanLast(name: string, fs: seq<Field>, cur: string)
    requires AllWord(name) && PrintableFields(fs)
    ensures Trim(cur + (['.'] + CutCall(name, Literal(fs)))) in Scan(Swallowed([], name, fs), cur, -2, Out)
  {
    var a, ds := Literal(fs), FieldDocs(fs);
    var head := ['.'] + (name + (['('] + ['{']));
    var t := if ds == [] then "" else Flat(ds[0]);
    assert PrintableArg(a, true);
    ItemsOk(a);
    SwallowedLast(name, fs);
    ScanHead(name, '{', Flat(Join(ds)) + "", cur);
    CutCallRegroup(cur, name, '{', t);
    CutCallBroken(name, a);
    if |ds| >= 2 {
      ScanItemsCut(ds, "", cur + head);
    } else {
      ScanItemsPass(ds, "", cur + head);
      ScanStop((cur + head) + t);
    }
  }

  lemma SwallowedLast(name: string, fs: seq<Field>)
    ensures Swallowed([], name, fs) == (['.'] + (name + (['('] + ['{']))) + (Flat(Join(FieldDocs(fs))) + "")
  {
    var l := Flat(Join(FieldDocs(fs)));
    assert Swallowed([], name, fs) == "" + (['.'] + (name + ("({" + l)));
  }

  lemma ScanStop(cur: string)
    requires cur != "" && !IsSpace(cur[|cur| - 1])
    ensures Trim(cur) in Scan("", cur, 0, Out)
  {
    TrimNotEmpty(cur);
  }

  lemma TrimNotEmpty(s: string)
    requires s != "" && !IsSpace(s[|s| - 1])
    ensures Trim(s) != ""
    decreases |s|
  {
    if IsSpace(s[0]) {
      TrimNotEmpty(s[1..]);
    }
  }

  /** Two levels below zero a call is cut if its argument has several items, and passed otherwise. */
  predicate Cuts(args: seq<Arg>) {
    |args| == 1 && |Items(args[0])| >= 2
  }

  lemma ScanCallCut(m: Modifier, rest: string, cur: string) returns (b: string)
    requires AllWord(m.name) && PrintableArgs(m.args, true) && Cuts(m.args)
    ensures Broken(b) && Trim(cur + (['.'] + b)) in Scan(Dotted(m.name, m.args) + rest, cur, -2, Out)
  {
    var a := m.args[0];
    assert PrintableArg(a, true) && m.args == [a];
    b := CutCall(m.name, a);
    CutCallBroken(m.name, a);
    ScanGroupCut(m.name, a, rest, cur);
  }

  lemma ScanCallPass(m: Modifier, rest: string, cur: string)
    requires AllWord(m.name) && PrintableArgs(m.args, true) && !Cuts(m.args)
    ensures Scan(Dotted(m.name, m.args) + rest, cur, -2, Out) == Scan(rest, cur + Dotted(m.name, m.args), -2, Out)
  {
    if FlatArgs(m.args) {
      ScanFlatCall(m.name, m.args, rest, cur);
    } else {
      ArgsKinds(m.args);
      ScanGroupPass(m.name, m.args[0], rest, cur);
    }
  }

  /** Some piece of the scan is `cur`, followed by text that ends in a broken call. */
  ghost predicate EndsBroken(y: string, b: string, cur: string, pieces: seq<string>) {
    Broken(b) && Trim(cur + (y + (['.'] + b))) in pieces
  }

  lemma NothingBefore(b: string, cur: string, pieces: seq<string>)
    requires Broken(b) && Trim(cur + (['.'] + b)) in pieces
    ensures EndsBroken("", b, cur, pieces)
  {
    assert "" + (['.'] + b) == ['.'] + b;
  }

  lemma CallBefore(d: string, y: string, b: string, cur: string, pieces: seq<string>)
    requires EndsBroken(y, b, cur + d, pieces)
    ensures EndsBroken(d + y, b, cur, pieces)
  {
    assert (cur + d) + (y + (['.'] + b)) == cur + ((d + y) + (['.'] + b));
  }

  /** Wherever the scan of the swallowed modifiers first cuts, the piece ends in a broken call. */
  lemma {:induction false} ScanSwallowed(front: seq<Modifier>, name: string, fs: seq<Field>, cur: string) returns (y: string, b: string)
    requires PrintableMods(front, true, true) && AllWord(name) && PrintableFields(fs)
    ensures EndsBroken(y, b, cur, Scan(Swallowed(front, name, fs), cur, -2, Out))
    decreases |front|
  {
    if front == [] {
      y, b := "", CutCall(name, Literal(fs));
      assert PrintableArg(Literal(fs), true);
      CutCallBroken(name, Literal(fs));
      ScanLast(name, fs, cur);
      NothingBefore(b, cur, Scan(Swallowed([], name, fs), cur, -2, Out));
    } else {
      var d, rest := Dotted(front[0].name, front[0].args), Swallowed(front[1..], name, fs);
      SwallowedNext(front, name, fs);
      if Cuts(front[0].args) {
        y := "";
        b := ScanCallCut(front[0], rest, cur);
        NothingBefore(b, cur, Scan(d + rest, cur, -2, Out));
      } else {
        ScanCallPass(front[0], rest, cur);
        y, b := ScanSwallowed(front[1..], name, fs, cur + d);
        CallBefore(d, y, b, cur, Scan(rest, cur + d, -2, Out));
        y := d + y;
      }
    }
  }

  // ---------- the type in front of the brace is a parse error ----------

  /** `parseProperty` fails on the piece. */
  ghost predicate PieceFails(piece: string) {
    var colon := IndexOf(piece, ':');
    colon.Some? && ParseZodType(Trim(piece[colon.value + 1..])).Err?
  }

  lemma {:induction false} PropsFail(pieces: seq<string>, piece: string, bound: nat)
    requires (forall p | p in pieces :: |p| <= bound) && piece in pieces && PieceFails(piece)
    ensures ParseProps(pieces, bound).Err?
    decreases |pieces|
  {
    var n := |pieces| - 1;
    if piece == pieces[n] {
      LastFails(pieces, bound);
    } else {
      assert piece in pieces[..n];
      PropsFail(pieces[..n], piece, bound);
      FrontFails(pieces, bound);
    }
  }

  lemma FrontFails(pieces: seq<string>, bound: nat)
    requires (forall p | p in pieces :: |p| <= bound) && pieces != []
    requires ParseProps(pieces[..|pieces| - 1], bound).Err?
    ensures ParseProps(pieces, bound).Err?
  {
  }

  lemma LastFails(pieces: seq<string>, bound: nat)
    requires (forall p | p in pieces :: |p| <= bound) && pieces != [] && PieceFails(pieces[|pieces| - 1])
    ensures ParseProps(pieces, bound).Err?
  {
    var last := pieces[|pieces| - 1];
    forall props ensures AddProperty(props, last).Err? { AdditionFails(props, last); }
  }

  lemma AdditionFails(props: seq<Prop>, piece: string)
    requires PieceFails(piece)
    ensures AddProperty(props, piece).Err?
  {
  }

  /** The scan arrives at the last piece with nothing or a space collected. */
  lemma {:induction false} ScanToLast(ds: seq<Doc>, cur: string, rest: string) returns (c: string)
    requires ds != [] && Pieces(ds) && (cur == "" || cur == " ")
    ensures c == "" || c == " "
    ensures forall e | e in Scan(rest, c + Flat(ds[|ds| - 1]), 0, Out) :: e in Scan(Flat(Join(ds)) + rest, cur, 0, Out)
    decreases |ds|
  {
    if |ds| == 1 {
      c := cur;
      ScanDoc(ds[0], rest, cur, 0);
    } else {
      var t, r := Flat(ds[0]), Flat(Join(ds[1..]));
      c := ScanToLast(ds[1..], " ", rest);
      assert Flat(Cat(Chars(", "), Join(ds[1..]))) == ", " + r;
      assert (t + (", " + r)) + rest == t + (", " + (r + rest));
      ScanDoc(ds[0], ", " + (r + rest), cur, 0);
      ScanComma(t, cur, r + rest);
    }
  }

  lemma ScanClose(rest: string, cur: string)
    ensures Scan("})" + rest, cur, 0, Out) == Scan(rest, cur + "})", -2, Out)
  {
    assert "})" + rest == ['}'] + ([')'] + rest);
    ScanOne('}', [')'] + rest, cur, 0, Out);
    ScanOne(')', rest, cur + ['}'], -1, Out);
    assert cur + ['}'] + [')'] == cur + "})";
  }

  lemma TrimPiece(c: string, t: string)
    requires (c == "" || c == " ") && Trimmed(t)
    ensures Trim(c + t) == t
  {
    TrimKeeps(t);
    assert "" + t == t;
  }

  /** The last property with the text behind it, up to the end of its piece. */
  lemma LastPieceFails(p: Prop, y: string, b: string)
    requires AllWord(p.key) && Printable(p.schema, true) && !p.schema.Nested? && Broken(b)
    ensures var t := (p.key + ": ") + ((Print(p.schema) + ("})" + y)) + ['.'] + b); Trimmed(t) && PieceFails(t)
  {
    var a := Print(p.schema) + ("})" + y);
    var v := a + ['.'] + b;
    SchemaZed(p.schema, true);
    ZedHasDot(p.schema);
    OnlyNestedIsObject(p.schema, true, ("})" + y) + (['.'] + b));
    TypeAndBroken(Print(p.schema), y, b);
    BrokenType(a, b);
    KeyAndValue(p.key, v);
    KeyedTrimmed(p.key, v);
  }

  lemma TypeAndBroken(t: string, y: string, b: string)
    requires |t| > 1 && t[1] == '.' && !IsSpace(t[0]) && b != "" && !IsSpace(b[|b| - 1])
    ensures var a := t + ("})" + y);
            a + ['.'] + b == t + (("})" + y) + (['.'] + b)) && '.' in a && Trimmed(a + ['.'] + b)
  {
    var a := t + ("})" + y);
    assert a[1] == '.' && a[0] == t[0];
    var v := a + ['.'] + b;
    assert v[0] == t[0] && v[|v| - 1] == b[|b| - 1];
  }

  lemma KeyedTrimmed(key: string, v: string)
    requires AllWord(key) && Trimmed(v) && v != ""
    ensures Trimmed((key + ": ") + v)
  {
    WordsArePlain(key);
    var t := (key + ": ") + v;
    assert t[0] == key[0] && t[|t| - 1] == v[|v| - 1];
  }

  lemma ZedHasDot(s: Schema)
    ensures |Print(s)| > 1 && Print(s)[1] == '.'
  {
    match s
    case Base(base, modifiers, args) => PrintedBase(base, modifiers, if args.None? then [] else args.value);
    case Nested(props, mods) => PrintedNested(props, mods);
    case ArrayOfObjects(props, mods) => PrintedArray(ObjectDoc(props), mods);
    case SimpleArray(inner, mods) => PrintedArray(SchemaDoc(inner), mods);
  }

  lemma {:induction false} LastPropDoc(props: seq<Prop>)
    requires props != []
    ensures |PropDocs(props)| == |props| && PropDocs(props)[|props| - 1] == PropDoc(props[|props| - 1])
  {
    if |props| > 1 {
      LastPropDoc(props[1..]);
    } else {
      assert PropDocs(props[1..]) == [];
    }
  }

  lemma PieceRegroup(c: string, key: string, t: string, y: string, b: string)
    ensures ((c + (key + t)) + "})") + (y + (['.'] + b)) == c + (key + ((t + ("})" + y)) + ['.'] + b))
  {
  }

  /** One of the captured pieces is the last property up to a broken call. */
  lemma SwallowedPiece(ds: seq<Doc>, p: Prop, front: seq<Modifier>, name: string, fs: seq<Field>) returns (t: string)
    requires ds != [] && Pieces(ds) && Flat(ds[|ds| - 1]) == (p.key + ": ") + Print(p.schema)
    requires AllWord(p.key) && Printable(p.schema, true) && !p.schema.Nested?
    requires PrintableMods(front, true, true) && AllWord(name) && PrintableFields(fs)
    ensures PieceFails(t) && t in Split(Flat(Join(ds)) + ("})" + Swallowed(front, name, fs)))
  {
    var x, key, v := Swallowed(front, name, fs), p.key + ": ", Print(p.schema);
    var c := ScanToLast(ds, "", "})" + x);
    ScanClose(x, c + (key + v));
    var y, b := ScanSwallowed(front, name, fs, (c + (key + v)) + "})");
    t := key + ((v + ("})" + y)) + ['.'] + b);
    PieceRegroup(c, key, v, y, b);
    LastPieceFails(p, y, b);
    TrimPiece(c, t);
  }

  lemma LastPropText(props: seq<Prop>)
    requires PrintableProps(props, true) && props != []
    ensures var ds, p := PropDocs(props), props[|props| - 1];
            && Pieces(ds) && ds != [] && Flat(ds[|ds| - 1]) == (p.key + ": ") + Print(p.schema)
            && AllWord(p.key) && Printable(p.schema, true)
  {
    ObjectZed(props, true);
    PropsAt(props, true);
    LastPropDoc(props);
    PropText(props[|props| - 1]);
  }

  lemma PropText(p: Prop)
    ensures Flat(PropDoc(p)) == (p.key + ": ") + Print(p.schema)
  {
  }

  /** The captured properties do not parse. */
  lemma SwallowedFails(props: seq<Prop>, front: seq<Modifier>, name: string, fs: seq<Field>)
    requires PrintableProps(props, true) && props != [] && !props[|props| - 1].schema.Nested?
    requires PrintableMods(front, true, true) && AllWord(name) && PrintableFields(fs)
    ensures var q := Flat(Join(PropDocs(props))) + ("})" + Swallowed(front, name, fs)); ParseProps(Split(q), |q|).Err?
  {
    var q := Flat(Join(PropDocs(props))) + ("})" + Swallowed(front, name, fs));
    LastPropText(props);
    var t := SwallowedPiece(PropDocs(props), props[|props| - 1], front, name, fs);
    PropsFail(Split(q), t, |q|);
  }

  lemma UnfoldFailingObjects(part: string, t: string, q: string)
    requires Z_ARRAY <= part && ArrayContent(part) == Some(t) && Z_OBJECT <= t && ObjectContent(t) == Some(q)
    requires ParseProps(Split(q), |q|).Err?
    ensures ParseArray(part).Err?
  {
  }

  lemma FailingObjects(props: seq<Prop>, inner: Option<seq<Modifier>>)
    requires PrintableProps(props, true) && props != [] && !props[|props| - 1].schema.Nested?
    requires PrintableTail(inner, true) && !NoBrace(inner)
    ensures var part := "z.array" + (['('] + Print(Nested(props, inner)) + [')']); Z_ARRAY <= part && ParseArray(part).Err?
  {
    var t := Print(Nested(props, inner));
    var front, name, fs := CapturedWithBrace(props, inner);
    SwallowedFails(props, front, name, fs);
    ModifiedObjectTrimmed(props, inner);
    ContentOfArray(t);
    PrintedNested(props, inner);
    ObjectStarts(Flat(Join(PropDocs(props))), Flat(TailDoc(inner)));
    UnfoldFailingObjects("z.array" + (['('] + t + [')']), t, Flat(Join(PropDocs(props))) + ("})" + Swallowed(front, name, fs)));
  }

  /** With a closing brace in the modifiers of the object, and a last property that is no object, the text does not parse. */
  lemma LiteralBreaksArray(props: seq<Prop>, inner: Option<seq<Modifier>>, mods: Option<seq<Modifier>>)
    requires PrintableProps(props, true) && props != [] && !props[|props| - 1].schema.Nested?
    requires PrintableTail(inner, true) && !NoBrace(inner) && PrintableTail(mods, false)
    ensures ParseZodType(Print(SimpleArray(Nested(props, inner), mods))).Err?
  {
    ModifiedObjectZed(props, inner);
    FailingObjects(props, inner);
    FailingArray(Nested(props, inner), mods);
  }

  lemma FailingArray(s: Schema, mods: Option<seq<Modifier>>)
    requires Zed(SchemaDoc(s)) && PrintableTail(mods, false)
    requires var part := "z.array" + (['('] + Print(s) + [')']); Z_ARRAY <= part && ParseArray(part).Err?
    ensures ParseZodType(Print(SimpleArray(s, mods))).Err?
  {
    ParsePrintedArray(SchemaDoc(s), mods);
  }

  lemma ObjectStarts(p: string, m: string)
    ensures Z_OBJECT <= "z.object" + (ObjectGroup(p) + m)
  {
    assert (ObjectGroup(p) + m)[0] == '(';
  }

  /**
    So for properties that do not end in an object the condition is exact: the array of objects
    comes out, without the inner modifiers, if and only if these hold no closing brace.
   */
  lemma DroppedExactly(props: seq<Prop>, inner: Option<seq<Modifier>>, mods: Option<seq<Modifier>>)
    requires PrintableProps(props, true) && props != [] && !props[|props| - 1].schema.Nested?
    requires PrintableTail(inner, true) && PrintableTail(mods, false)
    ensures ParseZodType(Print(SimpleArray(Nested(props, inner), mods))) == Ok(ArrayOfObjects(props, mods)) <==> NoBrace(inner)
  {
    if NoBrace(inner) {
      InnerModifiersDropped(props, inner, mods);
    } else {
      LiteralBreaksArray(props, inner, mods);
    }
  }

  const NAMED := [Prop("n", Base("string", [], Some([])))]
  const DEFAULTED := [Modifier("default", [Literal([Field("a", Num(1))])])]

  /** For instance the text z.array(z.object({n: z.string()}).default({a: 1})). */
  lemma DefaultBreaksArray()
    ensures ParseZodType(Print(SimpleArray(Nested(NAMED, Some(DEFAULTED)), None))).Err?
  {
    NamedPrintable();
    DefaultedPrintable();
    LiteralHasBrace("default", [Field("a", Num(1))], []);
    LiteralBreaksArray(NAMED, Some(DEFAULTED), None);
  }

  lemma NamedPrintable()
    ensures PrintableProps(NAMED, true)
  {
    assert Printable(Base("string", [], Some([])), true);
    assert NAMED[1..] == [];
  }

  lemma DefaultedPrintable()
    ensures PrintableTail(Some(DEFAULTED), true)
  {
    var fs := [Field("a", Num(1))];
    assert PrintableFields(fs) && PrintableArgs([Literal(fs)], true);
  }

  lemma LiteralHasBrace(name: string, fs: seq<Field>, rest: seq<Modifier>)
    ensures '}' in Flat(ModsDoc([Modifier(name, [Literal(fs)])] + rest))
  {
    var mods := [Modifier(name, [Literal(fs)])] + rest;
    var d := name + ("({" + Flat(Join(FieldDocs(fs))));
    ModsTextOf(mods);
    LiteralCall(name, fs);
    assert mods[1..] == rest;
    assert (['.'] + ((d + "})") + Flat(ModsDoc(rest))))[1 + |d|] == '}';
  }
}
