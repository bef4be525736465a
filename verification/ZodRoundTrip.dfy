/** The round trip: parsing the printed form of a schema gives back the schema. */
module ZodRoundTrip {
  import opened Common
  import opened ZodText
  import opened ZodParser
  import opened ZodPrinter

  // ---------- printing ----------

  function CallDoc(name: string, args: seq<Arg>): Doc {
    Cat(Chars(name), Group('(', ArgsDoc(args), ')'))
  }

  function ModsDoc(mods: seq<Modifier>): Doc {
    if mods == [] then Chars("") else Cat(Chars("."), Cat(CallDoc(mods[0].name, mods[0].args), ModsDoc(mods[1..])))
  }

  function TailDoc(mods: Option<seq<Modifier>>): Doc {
    if mods.None? then Chars("") else ModsDoc(mods.value)
  }

  function ObjectDoc(props: seq<Prop>): Doc
    decreases props, 1
  {
    Cat(Chars("z.object"), Group('(', Group('{', Join(PropDocs(props)), '}'), ')'))
  }

  function SchemaDoc(s: Schema): Doc
    decreases s, 2
  {
    match s
    case Base(base, modifiers, args) =>
      Cat(Chars("z."), Cat(CallDoc(base, if args.None? then [] else args.value), ModsDoc(modifiers)))
    case Nested(props, mods) => Cat(ObjectDoc(props), TailDoc(mods))
    case ArrayOfObjects(props, mods) => Cat(Cat(Chars("z.array"), Group('(', ObjectDoc(props), ')')), TailDoc(mods))
    case SimpleArray(inner, mods) => Cat(Cat(Chars("z.array"), Group('(', SchemaDoc(inner), ')')), TailDoc(mods))
  }

  function PropDoc(p: Prop): Doc
    decreases p, 3
  {
    Cat(Chars(p.key + ": "), SchemaDoc(p.schema))
  }

  function PropDocs(props: seq<Prop>): seq<Doc>
    decreases props, 0
  {
    if props == [] then [] else [PropDoc(props[0])] + PropDocs(props[1..])
  }

  /** The printed form of a schema and of its top level. */
  function Print(s: Schema): string {
    Flat(SchemaDoc(s))
  }

  function PrintTop(props: seq<Prop>): string {
    Flat(ObjectDoc(props))
  }

  // ---------- the printed fragment ----------

  /** Modifiers whose arguments come back; `allowed` asks for a name the parser knows. */
  predicate PrintableMods(mods: seq<Modifier>, allowed: bool, literals: bool) {
    forall i | 0 <= i < |mods| ::
      AllWord(mods[i].name) && PrintableArgs(mods[i].args, literals) && (allowed ==> mods[i].name in ALLOWED_TYPES)
  }

  predicate PrintableTail(mods: Option<seq<Modifier>>, literals: bool) {
    mods.Some? ==> mods.value != [] && PrintableMods(mods.value, true, literals)
  }

  /** `strict` holds inside an array of objects, whose types the parser validates. */
  predicate Printable(s: Schema, strict: bool)
    decreases s
  {
    match s
    case Base(base, modifiers, args) =>
      && AllWord(base) && base != "object" && base != "array"
      && args.Some? && PrintableArgs(args.value, false) && PrintableMods(modifiers, strict, false)
      && (strict ==> base in ALLOWED_TYPES)
    case Nested(props, mods) => PrintableProps(props, strict) && PrintableTail(mods, true)
    case ArrayOfObjects(props, mods) => PrintableProps(props, true) && PrintableTail(mods, false)
    case SimpleArray(inner, mods) => Printable(inner, strict) && !inner.Nested? && PrintableTail(mods, false)
  }

  predicate PrintableProps(props: seq<Prop>, strict: bool)
    decreases props
  {
    props == [] ||
    (AllWord(props[0].key) && Printable(props[0].schema, strict) && (forall i | 1 <= i < |props| :: props[i].key != props[0].key)
     && PrintableProps(props[1..], strict))
  }

  // ---------- printed text is well-nested ----------

  /** The printed call of a modifier or base type. */
  function CallText(name: string, args: seq<Arg>): string {
    name + ArgsText(args)
  }

  lemma CallFlat(name: string, args: seq<Arg>)
    ensures Flat(CallDoc(name, args)) == CallText(name, args)
    ensures CallText(name, args)[|CallText(name, args)| - 1] == ')'
  {
    assert Flat(Group('(', ArgsDoc(args), ')')) == ArgsText(args);
  }

  /** The text of modifiers without the first dot. */
  function ModsText(mods: seq<Modifier>): string
    requires mods != []
  {
    CallText(mods[0].name, mods[0].args) + Flat(ModsDoc(mods[1..]))
  }

  lemma ModsTextOf(mods: seq<Modifier>)
    requires mods != []
    ensures Flat(ModsDoc(mods)) == ['.'] + ModsText(mods)
  {
    CallFlat(mods[0].name, mods[0].args);
    assert Flat(Cat(CallDoc(mods[0].name, mods[0].args), ModsDoc(mods[1..]))) == ModsText(mods);
  }

  lemma CallWellNested(name: string, args: seq<Arg>, literals: bool)
    requires AllWord(name) && PrintableArgs(args, literals)
    ensures WellNested(CallDoc(name, args)) && CommaFree(CallDoc(name, args)) && Quiet(CallDoc(name, args))
  {
    WordsArePlain(name);
    ArgsOk(args, literals);
  }

  /** Behind a closing parenthesis, modifiers or nothing: the last character is a parenthesis. */
  lemma LastOf(t: string, mods: seq<Modifier>)
    requires t != "" && t[|t| - 1] == ')'
    requires mods != [] ==> Flat(ModsDoc(mods)) != "" && Flat(ModsDoc(mods))[|Flat(ModsDoc(mods))| - 1] == ')'
    ensures var u := t + Flat(ModsDoc(mods)); u[|u| - 1] == ')'
  {
    if mods == [] {
      assert Flat(ModsDoc(mods)) == "";
    }
  }

  lemma {:induction false} ModsWellNested(mods: seq<Modifier>, allowed: bool, literals: bool)
    requires PrintableMods(mods, allowed, literals)
    ensures WellNested(ModsDoc(mods)) && CommaFree(ModsDoc(mods))
  {
    if mods != [] {
      CallWellNested(mods[0].name, mods[0].args, literals);
      ModsWellNested(mods[1..], allowed, literals);
    }
  }

  lemma {:induction false} ModsEnds(mods: seq<Modifier>)
    ensures mods != [] ==> var t := Flat(ModsDoc(mods)); |t| > 0 && t[0] == '.' && t[|t| - 1] == ')'
  {
    if mods != [] {
      ModsEnds(mods[1..]);
      CallFlat(mods[0].name, mods[0].args);
      ModsTextOf(mods);
      LastOf(CallText(mods[0].name, mods[0].args), mods[1..]);
    }
  }

  /** A printed schema begins with z. and ends with a parenthesis. */
  predicate Zed(d: Doc) {
    WellNested(d) && CommaFree(d) && |Flat(d)| > 2 && Flat(d)[0] == 'z' && Flat(d)[|Flat(d)| - 1] == ')'
  }

  lemma ZedCat(d: Doc, m: Doc)
    requires Zed(d) && WellNested(m) && CommaFree(m) && (Flat(m) != "" ==> Flat(m)[|Flat(m)| - 1] == ')')
    ensures Zed(Cat(d, m))
  {
    var t := Flat(d) + Flat(m);
    assert Flat(Cat(d, m)) == t;
    assert t[0] == 'z' && t[|t| - 1] == ')';
  }

  lemma ZedTail(d: Doc, mods: Option<seq<Modifier>>, literals: bool)
    requires Zed(d) && PrintableTail(mods, literals)
    ensures Zed(Cat(d, TailDoc(mods)))
  {
    if mods.Some? {
      ModsEnds(mods.value);
      ModsWellNested(mods.value, true, literals);
    }
    ZedCat(d, TailDoc(mods));
  }

  lemma ZedPiece(d: Doc)
    requires Zed(d)
    ensures Piece(d)
  {
  }

  lemma ZedGroup(name: string, inner: Doc)
    requires WellNested(inner) && (name == "z.array" || name == "z.object")
    ensures Zed(Cat(Chars(name), Group('(', inner, ')')))
  {
    var t := name + (['('] + Flat(inner) + [')']);
    assert t[0] == 'z' && t[|t| - 1] == ')';
  }

  lemma BaseZed(base: string, modifiers: seq<Modifier>, args: seq<Arg>, strict: bool)
    requires AllWord(base) && PrintableArgs(args, false) && PrintableMods(modifiers, strict, false)
    ensures Zed(Cat(Chars("z."), Cat(CallDoc(base, args), ModsDoc(modifiers))))
  {
    CallWellNested(base, args, false);
    ModsWellNested(modifiers, strict, false);
    ModsEnds(modifiers);
    CallFlat(base, args);
    LastOf(CallText(base, args), modifiers);
    assert Flat(Cat(CallDoc(base, args), ModsDoc(modifiers))) == CallText(base, args) + Flat(ModsDoc(modifiers));
  }

  lemma {:induction false} SchemaZed(s: Schema, strict: bool)
    requires Printable(s, strict)
    ensures Zed(SchemaDoc(s))
    decreases s, 1
  {
    match s
    case Base(base, modifiers, args) => BaseZed(base, modifiers, args.value, strict);
    case Nested(props, mods) =>
      ObjectZed(props, strict);
      ZedTail(ObjectDoc(props), mods, true);
    case ArrayOfObjects(props, mods) =>
      ObjectZed(props, true);
      ZedGroup("z.array", ObjectDoc(props));
      ZedTail(Cat(Chars("z.array"), Group('(', ObjectDoc(props), ')')), mods, false);
    case SimpleArray(inner, mods) =>
      SchemaZed(inner, strict);
      ZedGroup("z.array", SchemaDoc(inner));
      ZedTail(Cat(Chars("z.array"), Group('(', SchemaDoc(inner), ')')), mods, false);
  }

  lemma {:induction false} ObjectZed(props: seq<Prop>, strict: bool)
    requires PrintableProps(props, strict)
    ensures Zed(ObjectDoc(props)) && Pieces(PropDocs(props))
    decreases props, 1
  {
    PropPieces(props, strict);
    JoinWellNested(PropDocs(props));
    ZedGroup("z.object", Group('{', Join(PropDocs(props)), '}'));
  }

  lemma {:induction false} PropPieces(props: seq<Prop>, strict: bool)
    requires PrintableProps(props, strict)
    ensures Pieces(PropDocs(props))
    decreases props, 0
  {
    if props != [] {
      SchemaZed(props[0].schema, strict);
      ZedPiece(SchemaDoc(props[0].schema));
      KeyedPiece(props[0].key, SchemaDoc(props[0].schema));
      PropPieces(props[1..], strict);
      assert PropDocs(props)[1..] == PropDocs(props[1..]);
    }
  }

  // ---------- modifiers are read back ----------

  lemma MatchCallText(name: string, args: seq<Arg>, literals: bool)
    requires AllWord(name) && PrintableArgs(args, literals)
    ensures var t := CallText(name, args);
            && MatchCall(t) == Some(Call(name, Some(ArgsText(args))))
            && QuietText(t) && Trimmed(t)
  {
    ArgsOk(args, literals);
    WordsArePlain(name);
    var a := Flat(ArgsDoc(args));
    var rest := ['('] + a + [')'];
    WordLengthOf(name, rest);
    assert (name + rest)[|name|..] == rest && (name + rest)[..|name|] == name;
    forall i | 0 <= i < |rest| ensures !IsLineEnd(rest[i]) && rest[i] != '.' {
      if 0 < i < |rest| - 1 { assert rest[i] == a[i - 1]; }
    }
    forall i | 0 <= i < |name + rest| ensures (name + rest)[i] != '.' && !IsLineEnd((name + rest)[i]) {
      if i >= |name| { assert (name + rest)[i] == rest[i - |name|]; }
    }
  }

  function CallTexts(mods: seq<Modifier>): seq<string> {
    if mods == [] then [] else [CallText(mods[0].name, mods[0].args)] + CallTexts(mods[1..])
  }

  /** Splitting at the dots separates the calls. */
  lemma {:induction false} SplitCalls(head: string, mods: seq<Modifier>, allowed: bool, literals: bool)
    requires PrintableMods(mods, allowed, literals) && '.' !in head
    ensures SplitOn(head + Flat(ModsDoc(mods)), '.') == [head] + CallTexts(mods)
    decreases |mods|
  {
    if mods == [] {
      assert head + "" == head;
      SplitOnNone(head, '.');
      assert [head] + [] == [head];
    } else {
      var c, m := CallText(mods[0].name, mods[0].args), Flat(ModsDoc(mods[1..]));
      MatchCallText(mods[0].name, mods[0].args, literals);
      ModsTextOf(mods);
      assert head + Flat(ModsDoc(mods)) == head + ['.'] + (c + m);
      SplitOnFirst(head, '.', c + m);
      SplitCalls(c, mods[1..], allowed, literals);
    }
  }

  lemma FirstModifier(mods: seq<Modifier>)
    requires mods != []
    ensures mods == [Modifier(mods[0].name, mods[0].args)] + mods[1..]
  {
  }

  lemma {:induction false} BaseModifiersRoundTrip(mods: seq<Modifier>, allowed: bool)
    requires PrintableMods(mods, allowed, false)
    ensures BaseModifiers(CallTexts(mods)) == Ok(mods)
  {
    if mods != [] {
      var name, args := mods[0].name, mods[0].args;
      MatchCallText(name, args, false);
      TrimKeeps(CallText(name, args));
      ArgsRoundTrip(args, false);
      BaseModifiersRoundTrip(mods[1..], allowed);
      assert CallTexts(mods)[1..] == CallTexts(mods[1..]);
      FirstModifier(mods);
    }
  }

  lemma {:induction false} ArrayModifiersRoundTrip(mods: seq<Modifier>)
    requires PrintableMods(mods, true, false)
    ensures ArrayModifiers(CallTexts(mods)) == Ok(mods)
  {
    if mods != [] {
      var name, args := mods[0].name, mods[0].args;
      MatchCallText(name, args, false);
      ArgsRoundTrip(args, false);
      ArrayModifiersRoundTrip(mods[1..]);
      assert CallTexts(mods)[1..] == CallTexts(mods[1..]);
      FirstModifier(mods);
    }
  }

  /** From an opening parenthesis the matching one is found behind the arguments. */
  lemma CloseOfGroup(inner: Doc, rest: string, at: nat)
    requires WellNested(inner)
    ensures CloseAt((['('] + Flat(inner) + [')']) + rest, 0, at) == Some(at + |Flat(inner)| + 2)
  {
    var n := at + 1 + |Flat(inner)|;
    FlatGroup('(', Flat(inner), ')', rest, "");
    CloseOne('(', Flat(inner) + ([')'] + rest), 0, at);
    CloseDoc(inner, [')'] + rest, 1, at + 1);
    assert CloseAt([')'] + rest, 1, n) == Some(n + 1);
  }

  lemma TakeGroup(s: string, n: nat, k: nat)
    requires n < |s| && s[n] == '(' && CloseAt(s[n..], 0, n) == Some(n + k)
    ensures TakeArgs(s, n) == Taken(Some(s[n..n + k]), s[n + k..])
  {
  }

  lemma TakePrintedArgs(name: string, args: seq<Arg>, m: string)
    requires PrintableArgs(args, true)
    ensures var group := ArgsText(args);
            TakeArgs(name + (group + m), |name|) == Taken(Some(group), m)
  {
    var group := ArgsText(args);
    ArgsOk(args, true);
    CloseOfGroup(ArgsDoc(args), m, |name|);
    CutAt(name, group, m);
    assert (group + m)[0] == '(';
    TakeGroup(name + (group + m), |name|, |group|);
  }

  lemma ObjectModifiersStep(name: string, args: seq<Arg>, m: string, more: seq<Modifier>)
    requires AllWord(name) && name in ALLOWED_TYPES && PrintableArgs(args, true)
    requires ObjectModifiers(SkipDot(m)) == Ok(more)
    ensures ObjectModifiers(CallText(name, args) + m) == Ok([Modifier(name, args)] + more)
  {
    var group := ArgsText(args);
    var s := CallText(name, args) + m;
    FlatCat(name, group, m, "");
    WordLengthOf(name, group + m);
    CutAt(name, group, m);
    TakePrintedArgs(name, args, m);
    ArgsRoundTrip(args, true);
    ObjectModifiersTurn(s, |name|, args, Ok(more));
  }

  lemma CutAt(a: string, b: string, c: string)
    ensures var s := a + (b + c);
            s[..|a|] == a && s[|a|..] == b + c && s[|a|..|a| + |b|] == b && s[|a| + |b|..] == c
  {
  }

  lemma SkipModsDot(mods: seq<Modifier>)
    ensures SkipDot(Flat(ModsDoc(mods))) == if mods == [] then "" else ModsText(mods)
  {
    if mods != [] {
      ModsTextOf(mods);
      assert (['.'] + ModsText(mods))[1..] == ModsText(mods);
    }
  }

  /** The loop reads all modifiers back, from the text behind the first dot. */
  lemma {:induction false} ObjectModifiersRoundTrip(mods: seq<Modifier>)
    requires PrintableMods(mods, true, true)
    ensures ObjectModifiers(SkipDot(Flat(ModsDoc(mods)))) == Ok(mods)
    decreases |mods|
  {
    SkipModsDot(mods);
    if mods != [] {
      ObjectModifiersRoundTrip(mods[1..]);
      ObjectModifiersStep(mods[0].name, mods[0].args, Flat(ModsDoc(mods[1..])), mods[1..]);
      FirstModifier(mods);
    }
  }

  // ---------- objects and arrays are cut out whole ----------

  /** The parentheses and braces around printed properties. */
  function ObjectGroup(p: string): string {
    ['('] + (['{'] + p + ['}']) + [')']
  }

  lemma ObjectEndOfGroup(d: Doc, rest: string)
    requires WellNested(d)
    ensures ObjectEndAt(ObjectGroup(Flat(d)) + rest, 0, 0, false, 8) == Some(|Flat(d)| + 12)
  {
    var p := Flat(d);
    var tail := ['}'] + ([')'] + rest);
    assert ObjectGroup(p) + rest == ['('] + (['{'] + (p + tail)) by {
      FlatGroup('(', ['{'] + p + ['}'], ')', rest, "");
      FlatGroup('{', p, '}', [')'] + rest, "");
    }
    assert (['('] + (['{'] + (p + tail)))[1..] == ['{'] + (p + tail);
    assert (['{'] + (p + tail))[1..] == p + tail;
    EndDoc(d, tail, 1, 0, 10);
    assert tail[1..] == [')'] + rest;
    assert ObjectEndAt([')'] + rest, 0, 0, true, |p| + 11) == Some(|p| + 12);
    assert ObjectEndAt(tail, 1, 0, true, |p| + 10) == Some(|p| + 12);
  }

  lemma {:induction false} NoClose(s: string)
    requires '}' !in s
    ensures LastClose(s) == None
  {
    if s != "" {
      NoClose(s[1..]);
    }
  }

  lemma LastCloseNext(c: char, t: string, n: nat)
    requires LastClose(t) == Some(n)
    ensures LastClose([c] + t) == Some(n + 1)
  {
    assert ([c] + t)[1..] == t;
  }

  lemma LastCloseHere(m: string)
    requires '}' !in m
    ensures LastClose("})" + m) == Some(0)
  {
    var t := "})" + m;
    assert t[1..] == [')'] + m;
    NoClose([')'] + m);
  }

  lemma {:induction false} LastCloseBefore(p: string, m: string)
    requires '}' !in m
    ensures LastClose(p + ("})" + m)) == Some(|p|)
  {
    if p == "" {
      LastCloseHere(m);
      assert p + ("})" + m) == "})" + m;
    } else {
      LastCloseBefore(p[1..], m);
      LastCloseNext(p[0], p[1..] + ("})" + m), |p| - 1);
      assert p + ("})" + m) == [p[0]] + (p[1..] + ("})" + m));
    }
  }

  /** The greedy regular expression captures exactly the printed properties, whatever brace-free text follows. */
  lemma ContentBefore(p: string, m: string)
    requires '}' !in m
    ensures var s := "z.object" + (ObjectGroup(p) + m); Z_OBJECT <= s && ObjectContent(s) == Some(p)
  {
    var s := "z.object" + (ObjectGroup(p) + m);
    assert s == "z.object({" + (p + ("})" + m));
    assert s[9..] == "{" + (p + ("})" + m));
    assert SpaceLength(s[9..]) == 0;
    assert s[10..] == p + ("})" + m);
    LastCloseBefore(p, m);
    assert (p + ("})" + m))[..|p|] == p;
  }

  lemma ContentOfObject(p: string)
    ensures ObjectContent("z.object" + ObjectGroup(p)) == Some(p)
  {
    ContentBefore(p, "");
    assert ObjectGroup(p) + "" == ObjectGroup(p);
  }

  /** The modifiers behind a cut-out part, or none. */
  predicate TailText(m: string, mods: Option<seq<Modifier>>) {
    if mods.None? then m == "" else mods.value != [] && m == ['.'] + ModsText(mods.value)
  }

  lemma TailTextOf(mods: Option<seq<Modifier>>, literals: bool)
    requires PrintableTail(mods, literals)
    ensures TailText(Flat(TailDoc(mods)), mods)
  {
    if mods.Some? {
      ModsTextOf(mods.value);
    }
  }

  /** How the part, the dot and the modifiers lie in the text. */
  lemma CutTail(name: string, g: string, m: string)
    ensures var s := name + (g + m);
            && s[..|name| + |g|] == name + g && s[|name|..] == g + m
            && (m == "" ==> s == name + g)
            && (m != "" ==> s[|name| + |g|] == m[0] && s[|name| + |g| + 1..] == m[1..])
  {
    CutAt(name, g, m);
    var s := name + (g + m);
    assert s == (name + g) + m;
    assert m != "" ==> m == [m[0]] + m[1..];
  }

  lemma ExtractObjectParts(g: string, m: string, mods: Option<seq<Modifier>>)
    requires g != "" && g[0] == '(' && ObjectEndAt(g + m, 0, 0, false, 8) == Some(8 + |g|)
    requires if mods.None? then m == ""
             else m != "" && m[0] == '.' && ObjectModifiers(m[1..]) == Ok(mods.value) && mods.value != []
    ensures var s := "z.object" + (g + m); Z_OBJECT <= s && ExtractObject(s) == Ok(Extract("z.object" + g, mods))
  {
    CutTail("z.object", g, m);
  }

  lemma ExtractPrintedObject(d: Doc, m: string, mods: Option<seq<Modifier>>)
    requires WellNested(d) && TailText(m, mods) && PrintableTail(mods, true)
    ensures var s := "z.object" + (ObjectGroup(Flat(d)) + m);
            Z_OBJECT <= s && ExtractObject(s) == Ok(Extract("z.object" + ObjectGroup(Flat(d)), mods))
  {
    ObjectEndOfGroup(d, m);
    if mods.Some? {
      assert m[1..] == ModsText(mods.value);
      ObjectModifiersRoundTrip(mods.value);
      SkipModsDot(mods.value);
    }
    ExtractObjectParts(ObjectGroup(Flat(d)), m, mods);
  }

  lemma ExtractArrayParts(g: string, m: string, mods: Option<seq<Modifier>>)
    requires g != "" && g[0] == '(' && CloseAt(g + m, 0, 7) == Some(7 + |g|)
    requires if mods.None? then m == ""
             else m != "" && m[0] == '.' && ArrayModifiers(SplitOn(m[1..], '.')) == Ok(mods.value)
    ensures var s := "z.array" + (g + m); Z_ARRAY <= s && ExtractArray(s) == Ok(Extract("z.array" + g, mods))
  {
    CutTail("z.array", g, m);
  }

  lemma ArrayTailRoundTrip(mods: seq<Modifier>)
    requires mods != [] && PrintableMods(mods, true, false)
    ensures ArrayModifiers(SplitOn(ModsText(mods), '.')) == Ok(mods)
  {
    var name, args := mods[0].name, mods[0].args;
    MatchCallText(name, args, false);
    SplitCalls(CallText(name, args), mods[1..], true, false);
    assert SplitOn(ModsText(mods), '.') == CallTexts(mods);
    ArrayModifiersRoundTrip(mods);
  }

  lemma ExtractPrintedArray(d: Doc, m: string, mods: Option<seq<Modifier>>)
    requires WellNested(d) && TailText(m, mods) && PrintableTail(mods, false)
    ensures var g := ['('] + Flat(d) + [')'];
            var s := "z.array" + (g + m);
            Z_ARRAY <= s && ExtractArray(s) == Ok(Extract("z.array" + g, mods))
  {
    CloseOfGroup(d, m, 7);
    if mods.Some? {
      assert m[1..] == ModsText(mods.value);
      ArrayTailRoundTrip(mods.value);
    }
    ExtractArrayParts(['('] + Flat(d) + [')'], m, mods);
  }

  /** The content of a printed array type, which neither starts nor ends with a space. */
  lemma ContentOfArray(t: string)
    requires t != "" && Trimmed(t)
    ensures var part := "z.array" + (['('] + t + [')']);
            Z_ARRAY <= part && ArrayContent(part) == Some(t)
  {
    var part := "z.array" + (['('] + t + [')']);
    assert part == "z.array(" + (t + ")");
    assert part[8..|part| - 1] == t;
    TrimKeeps(t);
  }

  // ---------- base types ----------

  lemma SameKeyword(base: string, rest: string, word: string)
    requires AllWord(base) && AllWord(word)
    requires ("z." + word + "(") <= ("z." + (base + (['('] + rest)))
    ensures base == word
  {
    var t := "z." + (base + (['('] + rest));
    var k := "z." + word + "(";
    var u := t[|k|..];
    assert t == k + u;
    assert t[2..] == word + (['('] + u) && t[2..] == base + (['('] + rest);
    WordLengthOf(base, ['('] + rest);
    WordLengthOf(word, ['('] + u);
    assert t[2..][..|word|] == word && t[2..][..|base|] == base;
  }

  /** A base type is told from `z.object(` and `z.array(` by its name. */
  lemma BaseIsNoKeyword(base: string, rest: string, word: string)
    requires AllWord(base) && AllWord(word) && base != word
    ensures !(("z." + word + "(") <= ("z." + (base + (['('] + rest))))
  {
    if ("z." + word + "(") <= ("z." + (base + (['('] + rest))) {
      SameKeyword(base, rest, word);
    }
  }

  lemma PrintedBaseIsNoKeyword(base: string, args: seq<Arg>, m: string)
    requires AllWord(base) && base != "object" && base != "array"
    ensures var t := "z." + (CallText(base, args) + m); !(Z_OBJECT <= t) && !(Z_ARRAY <= t)
  {
    var rest := Flat(ArgsDoc(args)) + [')'] + m;
    assert CallText(base, args) + m == base + (['('] + rest);
    BaseIsNoKeyword(base, rest, "object");
    BaseIsNoKeyword(base, rest, "array");
    assert Z_OBJECT == "z." + "object" + "(" && Z_ARRAY == "z." + "array" + "(";
  }

  lemma PartsOfBase(base: string, modifiers: seq<Modifier>, args: seq<Arg>, strict: bool)
    requires AllWord(base) && PrintableArgs(args, false) && PrintableMods(modifiers, strict, false)
    ensures SplitOn("z." + (CallText(base, args) + Flat(ModsDoc(modifiers))), '.') == ["z", CallText(base, args)] + CallTexts(modifiers)
  {
    var c, m := CallText(base, args), Flat(ModsDoc(modifiers));
    MatchCallText(base, args, false);
    assert "z." + (c + m) == "z" + ['.'] + (c + m);
    SplitOnFirst("z", '.', c + m);
    SplitCalls(c, modifiers, strict, false);
  }

  lemma UnfoldBase(s: string, c: string, rest: seq<string>, name: string, args: string, mods: seq<Modifier>)
    requires SplitOn(s, '.') == ["z", c] + rest && Trim("z") == "z" && Trim(c) == c
    requires MatchCall(c) == Some(Call(name, Some(args))) && BaseModifiers(rest) == Ok(mods)
    ensures ParseBase(s) == Ok(Base(name, mods, Some(ParseArguments(args))))
  {
    assert (["z", c] + rest)[2..] == rest;
  }

  lemma BaseRoundTrip(base: string, modifiers: seq<Modifier>, args: seq<Arg>, strict: bool)
    requires AllWord(base) && PrintableArgs(args, false) && PrintableMods(modifiers, strict, false)
    ensures ParseBase("z." + (CallText(base, args) + Flat(ModsDoc(modifiers)))) == Ok(Base(base, modifiers, Some(args)))
  {
    var c := CallText(base, args);
    PartsOfBase(base, modifiers, args, strict);
    MatchCallText(base, args, false);
    TrimKeeps("z");
    TrimKeeps(c);
    BaseModifiersRoundTrip(modifiers, strict);
    UnfoldBase("z." + (c + Flat(ModsDoc(modifiers))), c, CallTexts(modifiers), base, ArgsText(args), modifiers);
    ArgsRoundTrip(args, false);
  }

  // ---------- validation ----------

  lemma {:induction false} PrintableValidates(s: Schema)
    requires Printable(s, true)
    ensures Validate(s) == None
    decreases s
  {
    match s
    case Base(base, modifiers, _) =>
      assert forall m | m in modifiers :: m.name in ALLOWED_TYPES;
    case Nested(props, _) => PropsValidate(props);
    case ArrayOfObjects(props, _) => PropsValidate(props);
    case SimpleArray(inner, _) => PrintableValidates(inner);
  }

  lemma {:induction false} PropsValidate(props: seq<Prop>)
    requires PrintableProps(props, true)
    ensures ValidateAll(props) == None
    decreases props
  {
    if props != [] {
      PrintableValidates(props[0].schema);
      PropsValidate(props[1..]);
    }
  }

  // ---------- the round trip ----------

  lemma {:induction false} PutNew(props: seq<Prop>, p: Prop)
    requires forall i | 0 <= i < |props| :: props[i].key != p.key
    ensures Put(props, p) == props + [p]
  {
    if props != [] {
      PutNew(props[1..], p);
      assert props == [props[0]] + props[1..];
    }
  }

  lemma PutLast(props: seq<Prop>)
    requires props != [] && forall i | 0 <= i < |props| - 1 :: props[i].key != props[|props| - 1].key
    ensures Put(props[..|props| - 1], props[|props| - 1]) == props
  {
    var n := |props| - 1;
    PutNew(props[..n], props[n]);
    assert props == props[..n] + [props[n]];
  }

  lemma {:induction false} PropsAt(props: seq<Prop>, strict: bool)
    requires PrintableProps(props, strict)
    ensures forall i | 0 <= i < |props| :: AllWord(props[i].key) && Printable(props[i].schema, strict)
    ensures forall i, j | 0 <= i < j < |props| :: props[i].key != props[j].key
    ensures |Flats(PropDocs(props))| == |props|
    ensures forall i | 0 <= i < |props| :: Flats(PropDocs(props))[i] == (props[i].key + ": ") + Print(props[i].schema)
  {
    if props != [] {
      PropsAt(props[1..], strict);
      assert PropDocs(props)[1..] == PropDocs(props[1..]);
      assert Flat(PropDoc(props[0])) == (props[0].key + ": ") + Print(props[0].schema);
      forall i | 1 <= i < |props| ensures props[i] == props[1..][i - 1] { }
    }
  }

  /** Texts of the printed forms, piece by piece. */
  lemma PrintedObject(props: seq<Prop>)
    ensures PrintTop(props) == "z.object" + ObjectGroup(Flat(Join(PropDocs(props)))) && Z_OBJECT <= PrintTop(props)
  {
    var inner := Join(PropDocs(props));
    assert ObjectDoc(props) == Cat(Chars("z.object"), Group('(', Group('{', inner, '}'), ')'));
    FlatObject(inner);
    ObjectKeyword(Flat(Join(PropDocs(props))));
  }

  lemma FlatObject(inner: Doc)
    ensures Flat(Cat(Chars("z.object"), Group('(', Group('{', inner, '}'), ')'))) == "z.object" + ObjectGroup(Flat(inner))
  {
    var d := Group('{', inner, '}');
    assert Flat(d) == ['{'] + Flat(inner) + ['}'];
    assert Flat(Group('(', d, ')')) == ['('] + Flat(d) + [')'];
  }

  lemma ObjectKeyword(p: string)
    ensures Z_OBJECT <= "z.object" + ObjectGroup(p)
  {
    assert ObjectGroup(p)[0] == '(';
  }

  lemma PrintedNested(props: seq<Prop>, mods: Option<seq<Modifier>>)
    ensures Print(Nested(props, mods)) == "z.object" + (ObjectGroup(Flat(Join(PropDocs(props)))) + Flat(TailDoc(mods)))
  {
    PrintedObject(props);
    FlatCat("z.object", ObjectGroup(Flat(Join(PropDocs(props)))), Flat(TailDoc(mods)), "");
  }

  lemma PrintedArray(d: Doc, mods: Option<seq<Modifier>>)
    ensures Flat(Cat(Cat(Chars("z.array"), Group('(', d, ')')), TailDoc(mods)))
            == "z.array" + ((['('] + Flat(d) + [')']) + Flat(TailDoc(mods)))
  {
    assert Flat(Group('(', d, ')')) == ['('] + Flat(d) + [')'];
    assert Flat(Cat(Chars("z.array"), Group('(', d, ')'))) == "z.array" + (['('] + Flat(d) + [')']);
    FlatCat("z.array", ['('] + Flat(d) + [')'], Flat(TailDoc(mods)), "");
  }

  lemma NestedRoundTrip(props: seq<Prop>, mods: Option<seq<Modifier>>, strict: bool)
    requires Printable(Nested(props, mods), strict)
    requires ParsesBack(props)
    ensures ParseZodType(Print(Nested(props, mods))) == Ok(Nested(props, mods))
  {
    var p := Join(PropDocs(props));
    ObjectZed(props, strict);
    JoinWellNested(PropDocs(props));
    TailTextOf(mods, true);
    PrintedNested(props, mods);
    ExtractPrintedObject(p, Flat(TailDoc(mods)), mods);
    ContentOfObject(Flat(p));
  }

  /** The properties are read back from the text between the braces. */
  ghost predicate ParsesBack(props: seq<Prop>) {
    var text := Flat(Join(PropDocs(props)));
    ParseProps(Split(text), |text|) == Ok(props)
  }

  lemma UnfoldArrayType(s: string, part: string, mods: Option<seq<Modifier>>)
    requires !(Z_OBJECT <= s) && Z_ARRAY <= s && Z_ARRAY <= part && ExtractArray(s) == Ok(Extract(part, mods))
    ensures ParseZodType(s) == var arr := ParseArray(part); if arr.Err? then arr else Ok(arr.value.(mods := mods))
  {
  }

  lemma UnfoldArrayOfObjects(part: string, t: string, p: string, props: seq<Prop>)
    requires Z_ARRAY <= part && ArrayContent(part) == Some(t) && Z_OBJECT <= t && ObjectContent(t) == Some(p)
    requires ParseProps(Split(p), |p|) == Ok(props) && ValidateAll(props) == None
    ensures ParseArray(part) == Ok(ArrayOfObjects(props, None))
  {
  }

  lemma ParseCutArray(d: Doc, m: string, mods: Option<seq<Modifier>>)
    requires WellNested(d) && TailText(m, mods) && PrintableTail(mods, false)
    ensures var part := "z.array" + (['('] + Flat(d) + [')']);
            && Z_ARRAY <= part
            && ParseZodType("z.array" + ((['('] + Flat(d) + [')']) + m))
               == var arr := ParseArray(part); if arr.Err? then arr else Ok(arr.value.(mods := mods))
  {
    var g := ['('] + Flat(d) + [')'];
    ExtractPrintedArray(d, m, mods);
    ArrayIsNoObject(g + m);
    assert Z_ARRAY <= "z.array" + g by { assert g[0] == '('; }
    UnfoldArrayType("z.array" + (g + m), "z.array" + g, mods);
  }

  /** How an array type is parsed, once it is cut out. */
  lemma ParsePrintedArray(d: Doc, mods: Option<seq<Modifier>>)
    requires Zed(d) && PrintableTail(mods, false)
    ensures var s := Flat(Cat(Cat(Chars("z.array"), Group('(', d, ')')), TailDoc(mods)));
            var part := "z.array" + (['('] + Flat(d) + [')']);
            && Z_ARRAY <= part
            && ParseZodType(s) == var arr := ParseArray(part); if arr.Err? then arr else Ok(arr.value.(mods := mods))
  {
    TailTextOf(mods, false);
    PrintedArray(d, mods);
    ParseCutArray(d, Flat(TailDoc(mods)), mods);
  }

  lemma ArrayOfObjectsRoundTrip(props: seq<Prop>, mods: Option<seq<Modifier>>)
    requires PrintableProps(props, true) && PrintableTail(mods, false)
    requires ParsesBack(props)
    ensures ParseZodType(Print(ArrayOfObjects(props, mods))) == Ok(ArrayOfObjects(props, mods))
  {
    ObjectZed(props, true);
    ParsePrintedArray(ObjectDoc(props), mods);
    ParsePrintedObjects(props);
  }

  lemma ParsePrintedObjects(props: seq<Prop>)
    requires PrintableProps(props, true) && ParsesBack(props)
    ensures var part := "z.array" + (['('] + PrintTop(props) + [')']);
            Z_ARRAY <= part && ParseArray(part) == Ok(ArrayOfObjects(props, None))
  {
    var t, p := PrintTop(props), Flat(Join(PropDocs(props)));
    ObjectZed(props, true);
    ContentOfArray(t);
    PrintedObject(props);
    ContentOfObject(p);
    PropsValidate(props);
    UnfoldArrayOfObjects("z.array" + (['('] + t + [')']), t, p, props);
  }

  lemma ArrayIsNoObject(rest: string)
    ensures !(Z_OBJECT <= "z.array" + rest)
  {
    var s := "z.array" + rest;
    assert s[2] == 'a' && Z_OBJECT[2] == 'o';
  }

  lemma SimpleArrayRoundTrip(inner: Schema, mods: Option<seq<Modifier>>, strict: bool)
    requires Printable(SimpleArray(inner, mods), strict)
    requires ParseZodType(Print(inner)) == Ok(inner)
    ensures ParseZodType(Print(SimpleArray(inner, mods))) == Ok(SimpleArray(inner, mods))
  {
    SchemaZed(inner, strict);
    ParsePrintedArray(SchemaDoc(inner), mods);
    OnlyNestedIsObject(inner, strict, "");
    assert Print(inner) + "" == Print(inner);
    ContentOfArray(Print(inner));
  }

  /** Whatever follows, only a printed object starts like one. */
  lemma OnlyNestedIsObject(s: Schema, strict: bool, rest: string)
    requires Printable(s, strict) && !s.Nested?
    ensures !(Z_OBJECT <= Print(s) + rest)
  {
    match s
    case Base(base, modifiers, args) =>
      PrintedBase(base, modifiers, args.value);
      var c, m := CallText(base, args.value), Flat(ModsDoc(modifiers));
      PrintedBaseIsNoKeyword(base, args.value, m + rest);
      assert "z." + (c + (m + rest)) == ("z." + (c + m)) + rest;
    case ArrayOfObjects(props, mods) =>
      PrintedArray(ObjectDoc(props), mods);
      ArrayAndRest((['('] + Flat(ObjectDoc(props)) + [')']) + Flat(TailDoc(mods)), rest);
    case SimpleArray(inner, mods) =>
      PrintedArray(SchemaDoc(inner), mods);
      ArrayAndRest((['('] + Flat(SchemaDoc(inner)) + [')']) + Flat(TailDoc(mods)), rest);
  }

  lemma ArrayAndRest(t: string, rest: string)
    ensures !(Z_OBJECT <= ("z.array" + t) + rest)
  {
    ArrayIsNoObject(t + rest);
    assert ("z.array" + t) + rest == "z.array" + (t + rest);
  }

  lemma PrintedBase(base: string, modifiers: seq<Modifier>, args: seq<Arg>)
    ensures Print(Base(base, modifiers, Some(args))) == "z." + (CallText(base, args) + Flat(ModsDoc(modifiers)))
  {
    CallFlat(base, args);
    var d := Cat(CallDoc(base, args), ModsDoc(modifiers));
    assert Flat(d) == CallText(base, args) + Flat(ModsDoc(modifiers));
    assert SchemaDoc(Base(base, modifiers, Some(args))) == Cat(Chars("z."), d);
    assert Flat(Cat(Chars("z."), d)) == "z." + Flat(d);
  }

  /** Parsing the printed form of a type gives back the type. */
  lemma {:induction false} SchemaRoundTrip(s: Schema, strict: bool)
    requires Printable(s, strict)
    ensures ParseZodType(Print(s)) == Ok(s)
    decreases s, 1
  {
    match s
    case Base(base, modifiers, args) =>
      PrintedBase(base, modifiers, args.value);
      PrintedBaseIsNoKeyword(base, args.value, Flat(ModsDoc(modifiers)));
      BaseRoundTrip(base, modifiers, args.value, strict);
    case Nested(props, mods) =>
      PropsRoundTrip(props, strict);
      NestedRoundTrip(props, mods, strict);
    case ArrayOfObjects(props, mods) =>
      PropsRoundTrip(props, true);
      ArrayOfObjectsRoundTrip(props, mods);
    case SimpleArray(inner, mods) =>
      SchemaRoundTrip(inner, strict);
      SimpleArrayRoundTrip(inner, mods, strict);
  }

  lemma {:induction false} PropsRoundTrip(props: seq<Prop>, strict: bool)
    requires PrintableProps(props, strict)
    ensures ParsesBack(props)
    decreases props, 1
  {
    var pieces, text := Flats(PropDocs(props)), Flat(Join(PropDocs(props)));
    PropsAt(props, strict);
    forall i | 0 <= i < |props| ensures PieceParses(pieces[i], props[i]) {
      SchemaRoundTrip(props[i].schema, strict);
      PrintedPieceParses(props[i], strict);
    }
    SplitPrinted(props, strict);
    PiecesRoundTrip(pieces, props, |text|);
  }

  lemma SplitPrinted(props: seq<Prop>, strict: bool)
    requires PrintableProps(props, strict)
    ensures Split(Flat(Join(PropDocs(props)))) == Flats(PropDocs(props))
  {
    ObjectZed(props, strict);
    SplitJoin(PropDocs(props));
  }

  lemma PrintedPieceParses(p: Prop, strict: bool)
    requires AllWord(p.key) && Printable(p.schema, strict) && ParseZodType(Print(p.schema)) == Ok(p.schema)
    ensures PieceParses((p.key + ": ") + Print(p.schema), p)
  {
    SchemaZed(p.schema, strict);
    KeyAndValue(p.key, Print(p.schema));
  }

  /** A piece that `parseProperty` turns into the property. */
  ghost predicate PieceParses(piece: string, p: Prop) {
    var colon := IndexOf(piece, ':');
    && p.key != ""
    && colon.Some?
    && RemoveQuotes(Trim(piece[..colon.value])) == p.key
    && ParseZodType(Trim(piece[colon.value + 1..])) == Ok(p.schema)
  }

  lemma ParsePropsStep(pieces: seq<string>, front: seq<Prop>, p: Prop, bound: nat)
    requires pieces != [] && forall q | q in pieces :: |q| <= bound
    requires ParseProps(pieces[..|pieces| - 1], bound) == Ok(front) && PieceParses(pieces[|pieces| - 1], p)
    ensures ParseProps(pieces, bound) == Ok(Put(front, p))
  {
  }

  lemma {:induction false} PiecesRoundTrip(pieces: seq<string>, props: seq<Prop>, bound: nat)
    requires |pieces| == |props| && forall p | p in pieces :: |p| <= bound
    requires forall i | 0 <= i < |props| :: PieceParses(pieces[i], props[i])
    requires forall i, j | 0 <= i < j < |props| :: props[i].key != props[j].key
    ensures ParseProps(pieces, bound) == Ok(props)
    decreases |pieces|
  {
    if pieces != [] {
      var n := |pieces| - 1;
      PiecesRoundTrip(pieces[..n], props[..n], bound);
      PutLast(props);
      ParsePropsStep(pieces, props[..n], props[n], bound);
    }
  }

  /**
    The round trip: for every printable list of properties, parsing the printed schema gives
    back exactly these properties, in their order, with all types, arguments and modifiers.
   */
  lemma RoundTrip(props: seq<Prop>)
    requires PrintableProps(props, false)
    ensures ParseSchema(PrintTop(props)) == Ok(props)
  {
    PropsRoundTrip(props, false);
    PrintedObject(props);
    ContentOfObject(Flat(Join(PropDocs(props))));
    assert Z_OBJECT <= "z.object" + ObjectGroup(Flat(Join(PropDocs(props))));
  }

  /** Hence printing loses nothing: two schemas with the same text are the same. */
  lemma PrintInjective(a: seq<Prop>, b: seq<Prop>)
    requires PrintableProps(a, false) && PrintableProps(b, false) && PrintTop(a) == PrintTop(b)
    ensures a == b
  {
    RoundTrip(a);
    RoundTrip(b);
  }
}
