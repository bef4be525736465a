/**
  A printer for parsed schemas, and the proof that the parser reads back what it prints. The
  printed text is built as a tree of well-nested pieces, so that each scanner of the parser
  needs one lemma: it passes over a well-nested piece and is where it was.
 */
module ZodPrinter {
  import opened Common
  import opened ZodText
  import opened ZodParser

  // ---------- well-nested text ----------

  datatype Doc = Chars(s: string) | Quoted(s: string) | Group(open: char, inner: Doc, close: char) | Cat(a: Doc, b: Doc)

  function Flat(d: Doc): string {
    match d
    case Chars(s) => s
    case Quoted(s) => ['"'] + s + ['"']
    case Group(open, inner, close) => [open] + Flat(inner) + [close]
    case Cat(a, b) => Flat(a) + Flat(b)
  }

  predicate Plain(c: char) {
    !IsQuote(c) && !Opening(c) && !Closing(c)
  }

  /** Characters a printed string may hold: none that ends it, escapes, or that a scanner counts. */
  predicate Inside(c: char) {
    c != '"' && c != '\\' && c != '.' && c != '(' && c != ')' && c != '{' && c != '}' && !IsLineEnd(c)
  }

  predicate Brackets(open: char, close: char) {
    (open == '(' && close == ')') || (open == '[' && close == ']') || (open == '{' && close == '}')
  }

  predicate WellNested(d: Doc) {
    match d
    case Chars(s) => forall i | 0 <= i < |s| :: Plain(s[i])
    case Quoted(s) => forall i | 0 <= i < |s| :: Inside(s[i])
    case Group(open, inner, close) =>
      Brackets(open, close) && WellNested(inner)
    case Cat(a, b) => WellNested(a) && WellNested(b)
  }

  /** No comma outside brackets and strings. */
  predicate CommaFree(d: Doc) {
    match d
    case Chars(s) => ',' !in s
    case Quoted(_) => true
    case Group(_, _, _) => true
    case Cat(a, b) => CommaFree(a) && CommaFree(b)
  }

  // ---------- each scanner passes over well-nested text ----------

  lemma ScanOne(c: char, rest: string, cur: string, depth: int, mode: Mode)
    requires !(mode.Out? && c == ',' && depth == 0)
    ensures Scan([c] + rest, cur, depth, mode) == Scan(rest, cur + [c], NextDepth(depth, mode, c), NextMode(mode, c))
  {
    assert ([c] + rest)[1..] == rest;
  }

  lemma {:induction false} ScanPlain(s: string, rest: string, cur: string, depth: int)
    requires forall i | 0 <= i < |s| :: Plain(s[i])
    requires depth == 0 ==> ',' !in s
    ensures Scan(s + rest, cur, depth, Out) == Scan(rest, cur + s, depth, Out)
    decreases |s|
  {
    if s == "" {
      assert s + rest == rest && cur + s == cur;
    } else {
      var s' := s[1..];
      assert s == [s[0]] + s';
      assert s + rest == [s[0]] + (s' + rest);
      ScanOne(s[0], s' + rest, cur, depth, Out);
      forall i | 0 <= i < |s'| ensures Plain(s'[i]) { assert s'[i] == s[i + 1]; }
      ScanPlain(s', rest, cur + [s[0]], depth);
      assert cur + [s[0]] + s' == cur + s;
    }
  }

  lemma {:induction false} ScanInside(s: string, rest: string, cur: string, depth: int)
    requires forall i | 0 <= i < |s| :: Inside(s[i])
    ensures Scan(s + (['"'] + rest), cur, depth, In('"', false)) == Scan(rest, cur + s + ['"'], depth, Out)
    decreases |s|
  {
    if s == "" {
      assert s + (['"'] + rest) == ['"'] + rest;
      ScanOne('"', rest, cur, depth, In('"', false));
      assert cur + s == cur;
    } else {
      var c, s' := s[0], s[1..];
      assert Inside(c);
      ConcatHead(c, s', ['"'] + rest, cur);
      assert s == [c] + s';
      ScanOne(c, s' + (['"'] + rest), cur, depth, In('"', false));
      forall i | 0 <= i < |s'| ensures Inside(s'[i]) { assert s'[i] == s[i + 1]; }
      ScanInside(s', rest, cur + [c], depth);
    }
  }

  lemma ConcatHead(c: char, s: string, rest: string, cur: string)
    ensures ([c] + s) + rest == [c] + (s + rest)
    ensures (cur + [c]) + s == cur + ([c] + s)
  {
  }

  /** How a group, a string and a sequence of two pieces lie in the text. */
  lemma FlatGroup(open: char, inner: string, close: char, rest: string, cur: string)
    ensures ([open] + inner + [close]) + rest == [open] + (inner + ([close] + rest))
    ensures ((cur + [open]) + inner) + [close] == cur + ([open] + inner + [close])
  {
  }

  lemma FlatCat(a: string, b: string, rest: string, cur: string)
    ensures (a + b) + rest == a + (b + rest)
    ensures (cur + a) + b == cur + (a + b)
  {
  }

  lemma ScanQuoted(s: string, rest: string, cur: string, depth: int)
    requires forall i | 0 <= i < |s| :: Inside(s[i])
    ensures Scan((['"'] + s + ['"']) + rest, cur, depth, Out) == Scan(rest, cur + (['"'] + s + ['"']), depth, Out)
  {
    FlatGroup('"', s, '"', rest, cur);
    ScanOne('"', s + (['"'] + rest), cur, depth, Out);
    ScanInside(s, rest, cur + ['"'], depth);
  }

  /** `splitProperties` keeps well-nested text in one piece, at any depth. */
  lemma {:induction false} ScanDoc(d: Doc, rest: string, cur: string, depth: int)
    requires WellNested(d) && depth >= 0 && (depth == 0 ==> CommaFree(d))
    ensures Scan(Flat(d) + rest, cur, depth, Out) == Scan(rest, cur + Flat(d), depth, Out)
    decreases d
  {
    match d
    case Chars(s) => ScanPlain(s, rest, cur, depth);
    case Quoted(s) => ScanQuoted(s, rest, cur, depth);
    case Group(open, inner, close) =>
      FlatGroup(open, Flat(inner), close, rest, cur);
      ScanOne(open, Flat(inner) + ([close] + rest), cur, depth, Out);
      ScanDoc(inner, [close] + rest, cur + [open], depth + 1);
      ScanOne(close, rest, cur + [open] + Flat(inner), depth + 1, Out);
    case Cat(a, b) =>
      FlatCat(Flat(a), Flat(b), rest, cur);
      ScanDoc(a, Flat(b) + rest, cur, depth);
      ScanDoc(b, rest, cur + Flat(a), depth);
  }

  predicate NoBracket(s: string) {
    forall i | 0 <= i < |s| :: s[i] != '(' && s[i] != ')' && s[i] != '{' && s[i] != '}'
  }

  lemma LeafHasNoBracket(d: Doc)
    requires WellNested(d) && (d.Chars? || d.Quoted?)
    ensures NoBracket(Flat(d))
  {
  }

  lemma {:induction false} ClosePlain(s: string, rest: string, depth: int, at: nat)
    requires NoBracket(s)
    ensures CloseAt(s + rest, depth, at) == CloseAt(rest, depth, at + |s|)
    decreases |s|
  {
    if s == "" {
      assert s + rest == rest;
    } else {
      assert (s + rest)[1..] == s[1..] + rest;
      ClosePlain(s[1..], rest, depth, at + 1);
    }
  }

  lemma CloseOne(c: char, rest: string, depth: int, at: nat)
    requires !(c == ')' && depth == 1)
    ensures CloseAt([c] + rest, depth, at)
            == CloseAt(rest, depth + (if c == '(' then 1 else if c == ')' then -1 else 0), at + 1)
  {
    assert ([c] + rest)[1..] == rest;
  }

  lemma CloseGroup(open: char, t: string, close: char, rest: string, depth: int, at: nat)
    requires Brackets(open, close) && depth >= 1
    requires CloseAt(t + ([close] + rest), Parens(open, depth), at + 1) == CloseAt([close] + rest, Parens(open, depth), at + 1 + |t|)
    ensures CloseAt(([open] + t + [close]) + rest, depth, at) == CloseAt(rest, depth, at + |t| + 2)
  {
    FlatGroup(open, t, close, rest, "");
    CloseOne(open, t + ([close] + rest), depth, at);
    CloseOne(close, rest, Parens(open, depth), at + 1 + |t|);
  }

  lemma CloseCat(a: string, b: string, rest: string, depth: int, at: nat)
    requires CloseAt(a + (b + rest), depth, at) == CloseAt(b + rest, depth, at + |a|)
    requires CloseAt(b + rest, depth, at + |a|) == CloseAt(rest, depth, at + |a| + |b|)
    ensures CloseAt((a + b) + rest, depth, at) == CloseAt(rest, depth, at + |a + b|)
  {
    FlatCat(a, b, rest, "");
  }

  /** The search for a closing parenthesis skips well-nested text. */
  lemma {:induction false} CloseDoc(d: Doc, rest: string, depth: int, at: nat)
    requires WellNested(d) && depth >= 1
    ensures CloseAt(Flat(d) + rest, depth, at) == CloseAt(rest, depth, at + |Flat(d)|)
    decreases d
  {
    match d
    case Chars(_) | Quoted(_) =>
      LeafHasNoBracket(d);
      ClosePlain(Flat(d), rest, depth, at);
    case Group(open, inner, close) =>
      CloseDoc(inner, [close] + rest, Parens(open, depth), at + 1);
      CloseGroup(open, Flat(inner), close, rest, depth, at);
    case Cat(a, b) =>
      CloseDoc(a, Flat(b) + rest, depth, at);
      CloseDoc(b, rest, depth, at + |Flat(a)|);
      CloseCat(Flat(a), Flat(b), rest, depth, at);
  }

  lemma {:induction false} EndPlain(s: string, rest: string, braces: int, parens: int, at: nat)
    requires NoBracket(s)
    ensures ObjectEndAt(s + rest, braces, parens, true, at) == ObjectEndAt(rest, braces, parens, true, at + |s|)
    decreases |s|
  {
    if s == "" {
      assert s + rest == rest;
    } else {
      assert (s + rest)[1..] == s[1..] + rest;
      EndPlain(s[1..], rest, braces, parens, at + 1);
    }
  }

  function Braces(open: char, n: int): int {
    if open == '{' then n + 1 else n
  }

  function Parens(open: char, n: int): int {
    if open == '(' then n + 1 else n
  }

  lemma EndOpen(open: char, rest: string, braces: int, parens: int, at: nat)
    requires Opening(open) && braces >= 1
    ensures ObjectEndAt([open] + rest, braces, parens, true, at)
            == ObjectEndAt(rest, Braces(open, braces), Parens(open, parens), true, at + 1)
  {
    assert ([open] + rest)[1..] == rest;
  }

  lemma EndClose(open: char, close: char, rest: string, braces: int, parens: int, at: nat)
    requires Brackets(open, close) && braces >= 1
    ensures ObjectEndAt([close] + rest, Braces(open, braces), Parens(open, parens), true, at)
            == ObjectEndAt(rest, braces, parens, true, at + 1)
  {
    assert ([close] + rest)[1..] == rest;
  }

  lemma EndGroup(open: char, t: string, close: char, rest: string, braces: int, parens: int, at: nat)
    requires Brackets(open, close) && braces >= 1
    requires ObjectEndAt(t + ([close] + rest), Braces(open, braces), Parens(open, parens), true, at + 1)
             == ObjectEndAt([close] + rest, Braces(open, braces), Parens(open, parens), true, at + 1 + |t|)
    ensures ObjectEndAt(([open] + t + [close]) + rest, braces, parens, true, at)
            == ObjectEndAt(rest, braces, parens, true, at + |t| + 2)
  {
    FlatGroup(open, t, close, rest, "");
    EndOpen(open, t + ([close] + rest), braces, parens, at);
    EndClose(open, close, rest, braces, parens, at + 1 + |t|);
  }

  /** Within the braces of an object the search for its end skips well-nested text. */
  lemma {:induction false} EndDoc(d: Doc, rest: string, braces: int, parens: int, at: nat)
    requires WellNested(d) && braces >= 1
    ensures ObjectEndAt(Flat(d) + rest, braces, parens, true, at) == ObjectEndAt(rest, braces, parens, true, at + |Flat(d)|)
    decreases d
  {
    match d
    case Chars(_) | Quoted(_) =>
      LeafHasNoBracket(d);
      EndPlain(Flat(d), rest, braces, parens, at);
    case Group(open, inner, close) =>
      EndDoc(inner, [close] + rest, Braces(open, braces), Parens(open, parens), at + 1);
      EndGroup(open, Flat(inner), close, rest, braces, parens, at);
    case Cat(a, b) =>
      EndDoc(a, Flat(b) + rest, braces, parens, at);
      EndDoc(b, rest, braces, parens, at + |Flat(a)|);
      FlatCat(Flat(a), Flat(b), rest, "");
  }

  // ---------- lists of pieces ----------

  /** Pieces separated by a comma and a space. */
  function Join(ds: seq<Doc>): Doc {
    if ds == [] then Chars("") else if |ds| == 1 then ds[0] else Cat(ds[0], Cat(Chars(", "), Join(ds[1..])))
  }

  function Flats(ds: seq<Doc>): seq<string> {
    if ds == [] then [] else [Flat(ds[0])] + Flats(ds[1..])
  }

  /** A piece that stands for itself between commas. */
  predicate Piece(d: Doc) {
    WellNested(d) && CommaFree(d) && Flat(d) != "" && Trimmed(Flat(d))
  }

  predicate Pieces(ds: seq<Doc>) {
    ds == [] || (Piece(ds[0]) && Pieces(ds[1..]))
  }

  lemma {:induction false} JoinWellNested(ds: seq<Doc>)
    requires Pieces(ds)
    ensures WellNested(Join(ds))
  {
    if |ds| > 1 {
      JoinWellNested(ds[1..]);
    }
  }

  lemma ScanEnd(t: string, cur: string)
    requires t != "" && Trimmed(t) && (cur == "" || cur == " ")
    ensures Scan("", cur + t, 0, Out) == [t]
  {
    TrimKeeps(t);
    assert "" + t == t;
  }

  lemma ScanCut(rest: string, cur: string)
    ensures Scan([','] + rest, cur, 0, Out) == [Trim(cur)] + Scan(rest, "", 0, Out)
  {
    assert ([','] + rest)[1..] == rest;
  }

  lemma ScanComma(t: string, cur: string, rest: string)
    requires t != "" && Trimmed(t) && (cur == "" || cur == " ")
    ensures Scan(", " + rest, cur + t, 0, Out) == [t] + Scan(rest, " ", 0, Out)
  {
    TrimKeeps(t);
    assert "" + t == t;
    assert ", " + rest == [','] + ([' '] + rest);
    ScanCut([' '] + rest, cur + t);
    ScanOne(' ', rest, "", 0, Out);
    assert "" + [' '] == " ";
  }

  lemma {:induction false} ScanJoin(ds: seq<Doc>, cur: string)
    requires ds != [] && Pieces(ds) && (cur == "" || cur == " ")
    ensures Scan(Flat(Join(ds)), cur, 0, Out) == Flats(ds)
    decreases |ds|
  {
    var t := Flat(ds[0]);
    if |ds| == 1 {
      assert t + "" == t;
      ScanDoc(ds[0], "", cur, 0);
      ScanEnd(t, cur);
      assert Flats(ds[1..]) == [];
    } else {
      var r := Flat(Join(ds[1..]));
      assert Flat(Cat(Chars(", "), Join(ds[1..]))) == Flat(Chars(", ")) + r;
      ScanDoc(ds[0], ", " + r, cur, 0);
      ScanComma(t, cur, r);
      ScanJoin(ds[1..], " ");
    }
  }

  /** Splitting a printed list gives back its pieces. */
  lemma SplitJoin(ds: seq<Doc>)
    requires Pieces(ds)
    ensures Split(Flat(Join(ds))) == Flats(ds)
  {
    if ds != [] {
      ScanJoin(ds, "");
    }
  }

  // ---------- printing arguments ----------

  const MAX_SAFE_INTEGER := 9007199254740991

  predicate AllInside(s: string) {
    forall i | 0 <= i < |s| :: Inside(s[i])
  }

  function QuotedDocs(items: seq<string>): seq<Doc> {
    if items == [] then [] else [Quoted(items[0])] + QuotedDocs(items[1..])
  }

  function FieldDocs(fs: seq<Field>): seq<Doc> {
    if fs == [] then [] else [FieldDoc(fs[0])] + FieldDocs(fs[1..])
  }

  function FieldDoc(f: Field): Doc {
    Cat(Chars(f.key + ": "), ValueDoc(f.value))
  }

  function ValueDoc(a: Arg): Doc {
    match a
    case Num(n) => Chars(PrintNat(n))
    case Str(s) => Quoted(s)
    case List(items) => Group('[', Join(QuotedDocs(items)), ']')
    case Literal(_) => Chars("")
  }

  function ArgDoc(a: Arg): Doc {
    match a
    case Literal(fs) => Group('{', Join(FieldDocs(fs)), '}')
    case _ => ValueDoc(a)
  }

  function ArgDocs(args: seq<Arg>): seq<Doc> {
    if args == [] then [] else [ArgDoc(args[0])] + ArgDocs(args[1..])
  }

  function ArgsDoc(args: seq<Arg>): Doc {
    Join(ArgDocs(args))
  }

  /** The arguments in their parentheses, as the argument parsers get them. */
  function ArgsText(args: seq<Arg>): string {
    ['('] + Flat(ArgsDoc(args)) + [')']
  }

  predicate PrintableValue(a: Arg) {
    match a
    case Num(n) => n <= MAX_SAFE_INTEGER
    case Str(s) => AllInside(s)
    case List(items) => forall i | 0 <= i < |items| :: AllInside(items[i])
    case Literal(_) => false
  }

  predicate PrintableFields(fs: seq<Field>) {
    && (forall i | 0 <= i < |fs| :: AllWord(fs[i].key) && PrintableValue(fs[i].value))
    && (forall i, j | 0 <= i < j < |fs| :: fs[i].key != fs[j].key)
  }

  /** Object literals only where `literals` says so. */
  predicate PrintableArg(a: Arg, literals: bool) {
    PrintableValue(a) || (literals && a.Literal? && PrintableFields(a.fields))
  }

  predicate PrintableEach(args: seq<Arg>, literals: bool) {
    forall i | 0 <= i < |args| :: PrintableArg(args[i], literals)
  }

  /** What a cut at every comma leaves whole and recognizes: a number, or a string without a comma. */
  predicate Scalar(a: Arg) {
    a.Num? || (a.Str? && ',' !in a.s)
  }

  /** Several arguments must be scalars, and must not begin and end with a string. */
  predicate Separable(args: seq<Arg>) {
    |args| <= 1
    || ((forall i | 0 <= i < |args| :: Scalar(args[i])) && !(args[0].Str? && args[|args| - 1].Str?))
  }

  predicate PrintableArgs(args: seq<Arg>, literals: bool) {
    PrintableEach(args, literals) && Separable(args)
  }

  // ---------- text without dots and line ends ----------

  predicate QuietText(s: string) {
    forall i | 0 <= i < |s| :: s[i] != '.' && !IsLineEnd(s[i])
  }

  predicate Quiet(d: Doc) {
    match d
    case Chars(s) => QuietText(s)
    case Quoted(_) => true
    case Group(_, inner, _) => Quiet(inner)
    case Cat(a, b) => Quiet(a) && Quiet(b)
  }

  lemma {:induction false} QuietFlat(d: Doc)
    requires Quiet(d) && WellNested(d)
    ensures QuietText(Flat(d))
    decreases d
  {
    match d
    case Chars(s) =>
    case Quoted(s) =>
    case Group(_, inner, _) => QuietFlat(inner);
    case Cat(a, b) => QuietFlat(a); QuietFlat(b);
  }

  lemma {:induction false} QuietJoin(ds: seq<Doc>)
    requires forall i | 0 <= i < |ds| :: Quiet(ds[i])
    ensures Quiet(Join(ds))
  {
    if |ds| > 1 {
      forall i | 0 <= i < |ds[1..]| ensures Quiet(ds[1..][i]) { assert ds[1..][i] == ds[i + 1]; }
      QuietJoin(ds[1..]);
    }
  }

  lemma DigitsPrinted(n: nat)
    ensures Piece(Chars(PrintNat(n))) && Quiet(Chars(PrintNat(n)))
  {
    NatRoundTrip(n);
    var s := PrintNat(n);
    forall i | 0 <= i < |s| ensures Plain(s[i]) && s[i] != ',' && s[i] != '.' && !IsLineEnd(s[i]) && !IsSpace(s[i]) {
      assert IsDigit(s[i]);
    }
  }

  lemma {:induction false} QuotedPieces(items: seq<string>)
    requires forall i | 0 <= i < |items| :: AllInside(items[i])
    ensures Pieces(QuotedDocs(items))
    ensures forall i | 0 <= i < |QuotedDocs(items)| :: Quiet(QuotedDocs(items)[i])
  {
    if items != [] {
      forall i | 0 <= i < |items[1..]| ensures AllInside(items[1..][i]) { assert items[1..][i] == items[i + 1]; }
      QuotedPieces(items[1..]);
      assert QuotedDocs(items)[1..] == QuotedDocs(items[1..]);
    }
  }

  lemma ValuePiece(a: Arg)
    requires PrintableValue(a)
    ensures Piece(ValueDoc(a)) && Quiet(ValueDoc(a))
  {
    match a
    case Num(n) => DigitsPrinted(n);
    case Str(s) =>
    case List(items) =>
      QuotedPieces(items);
      JoinWellNested(QuotedDocs(items));
      QuietJoin(QuotedDocs(items));
  }

  lemma WordsArePlain(w: string)
    requires AllWord(w)
    ensures forall i | 0 <= i < |w| :: Plain(w[i]) && w[i] != ',' && w[i] != ':' && w[i] != '.' && !IsLineEnd(w[i]) && !IsSpace(w[i])
  {
    forall i | 0 <= i < |w| ensures Plain(w[i]) && w[i] != ',' && w[i] != ':' && w[i] != '.' && !IsLineEnd(w[i]) && !IsSpace(w[i]) {
      assert IsWord(w[i]);
    }
  }

  /** A key, a colon and a printed piece make a piece again. */
  lemma KeyedPiece(key: string, d: Doc)
    requires AllWord(key) && Piece(d)
    ensures Piece(Cat(Chars(key + ": "), d))
  {
    WordsArePlain(key);
    var k := key + ": ";
    forall i | 0 <= i < |k| ensures Plain(k[i]) && k[i] != ',' {
      if i < |key| { assert k[i] == key[i]; }
    }
    var t := k + Flat(d);
    assert t[0] == key[0];
    assert t[|t| - 1] == Flat(d)[|Flat(d)| - 1];
  }

  lemma {:induction false} FieldPieces(fs: seq<Field>)
    requires PrintableFields(fs)
    ensures Pieces(FieldDocs(fs))
  {
    if fs != [] {
      forall i | 0 <= i < |fs[1..]| ensures fs[1..][i] == fs[i + 1] { }
      FieldPieces(fs[1..]);
      ValuePiece(fs[0].value);
      KeyedPiece(fs[0].key, ValueDoc(fs[0].value));
      assert FieldDocs(fs)[1..] == FieldDocs(fs[1..]);
    }
  }

  lemma {:induction false} FieldsQuiet(fs: seq<Field>)
    requires PrintableFields(fs)
    ensures forall d | d in FieldDocs(fs) :: Quiet(d)
  {
    if fs != [] {
      forall i | 0 <= i < |fs[1..]| ensures fs[1..][i] == fs[i + 1] { }
      FieldsQuiet(fs[1..]);
      ValuePiece(fs[0].value);
      WordsArePlain(fs[0].key);
    }
  }

  lemma EachBehind(args: seq<Arg>, literals: bool)
    requires PrintableEach(args, literals) && args != []
    ensures PrintableArg(args[0], literals) && PrintableEach(args[1..], literals)
  {
    forall i | 0 <= i < |args[1..]| ensures PrintableArg(args[1..][i], literals) { assert args[1..][i] == args[i + 1]; }
  }

  lemma ArgPiece(a: Arg, literals: bool)
    requires PrintableArg(a, literals)
    ensures Piece(ArgDoc(a)) && Quiet(ArgDoc(a))
  {
    if a.Literal? {
      FieldPieces(a.fields);
      FieldsQuiet(a.fields);
      JoinWellNested(FieldDocs(a.fields));
      QuietJoin(FieldDocs(a.fields));
    } else {
      ValuePiece(a);
    }
  }

  lemma {:induction false} ArgPieces(args: seq<Arg>, literals: bool)
    requires PrintableEach(args, literals)
    ensures Pieces(ArgDocs(args)) && |ArgDocs(args)| == |args|
    ensures forall i | 0 <= i < |args| :: ArgDocs(args)[i] == ArgDoc(args[i]) && Quiet(ArgDocs(args)[i])
  {
    if args != [] {
      EachBehind(args, literals);
      ArgPieces(args[1..], literals);
      ArgPiece(args[0], literals);
      assert ArgDocs(args)[1..] == ArgDocs(args[1..]);
      forall i | 1 <= i < |args| ensures ArgDocs(args)[i] == ArgDocs(args[1..])[i - 1] && args[i] == args[1..][i - 1] { }
    }
  }

  /** What every scanner needs to know about printed arguments. */
  lemma ArgsOk(args: seq<Arg>, literals: bool)
    requires PrintableEach(args, literals)
    ensures WellNested(ArgsDoc(args)) && Quiet(ArgsDoc(args)) && QuietText(Flat(ArgsDoc(args))) && Trimmed(Flat(ArgsDoc(args)))
    ensures args != [] ==> Flat(ArgsDoc(args)) != ""
  {
    ArgPieces(args, literals);
    JoinWellNested(ArgDocs(args));
    QuietJoin(ArgDocs(args));
    QuietFlat(ArgsDoc(args));
    JoinTrimmed(ArgDocs(args));
  }

  // ---------- parsing arguments ----------

  lemma ItemOne(c: char, rest: string, cur: string, mode: Mode)
    requires !(mode.Out? && c == ',')
    ensures ScanItems([c] + rest, cur, mode) == ScanItems(rest, cur + [c], NextMode(mode, c))
  {
    assert ([c] + rest)[1..] == rest;
  }

  lemma {:induction false} ItemInside(s: string, rest: string, cur: string)
    requires AllInside(s)
    ensures ScanItems(s + (['"'] + rest), cur, In('"', false)) == ScanItems(rest, cur + s + ['"'], Out)
    decreases |s|
  {
    if s == "" {
      assert s + (['"'] + rest) == ['"'] + rest;
      ItemOne('"', rest, cur, In('"', false));
      assert cur + s == cur;
    } else {
      var c, s' := s[0], s[1..];
      assert Inside(c);
      ConcatHead(c, s', ['"'] + rest, cur);
      assert s == [c] + s';
      ItemOne(c, s' + (['"'] + rest), cur, In('"', false));
      forall i | 0 <= i < |s'| ensures Inside(s'[i]) { assert s'[i] == s[i + 1]; }
      ItemInside(s', rest, cur + [c]);
    }
  }

  lemma ItemQuoted(s: string, rest: string, cur: string)
    requires AllInside(s)
    ensures ScanItems((['"'] + s + ['"']) + rest, cur, Out) == ScanItems(rest, cur + (['"'] + s + ['"']), Out)
  {
    FlatGroup('"', s, '"', rest, cur);
    ItemOne('"', s + (['"'] + rest), cur, Out);
    ItemInside(s, rest, cur + ['"']);
  }

  lemma ItemStripped(s: string, cur: string)
    requires cur == "" || cur == " "
    ensures var q := cur + (['"'] + s + ['"']); Trim(q) != "" && StripQuotes(Trim(q)) == s
  {
    var q := ['"'] + s + ['"'];
    TrimKeeps(q);
    assert "" + q == q;
    StripQuoted(s);
    assert q == "\"" + s + "\"";
  }

  lemma {:induction false} ItemsRoundTrip(items: seq<string>, cur: string)
    requires items != [] && (forall i | 0 <= i < |items| :: AllInside(items[i])) && (cur == "" || cur == " ")
    ensures ScanItems(Flat(Join(QuotedDocs(items))), cur, Out) == items
    decreases |items|
  {
    var ds, s := QuotedDocs(items), items[0];
    var t := ['"'] + s + ['"'];
    ItemStripped(s, cur);
    if |items| == 1 {
      assert QuotedDocs(items[1..]) == [];
      assert t + "" == t;
      ItemQuoted(s, "", cur);
    } else {
      forall i | 0 <= i < |items[1..]| ensures AllInside(items[1..][i]) { assert items[1..][i] == items[i + 1]; }
      assert ds[1..] == QuotedDocs(items[1..]);
      var r := Flat(Join(ds[1..]));
      assert Flat(Cat(Chars(", "), Join(ds[1..]))) == Flat(Chars(", ")) + r;
      ItemQuoted(s, ", " + r, cur);
      assert (", " + r)[1..] == [' '] + r;
      ItemOne(' ', r, "", Out);
      assert "" + [' '] == " ";
      ItemsRoundTrip(items[1..], " ");
    }
    assert items == [s] + items[1..];
  }

  lemma ListRoundTrip(items: seq<string>)
    requires forall i | 0 <= i < |items| :: AllInside(items[i])
    ensures ScanItems(Flat(Join(QuotedDocs(items))), "", Out) == items
  {
    if items != [] {
      ItemsRoundTrip(items, "");
    }
  }

  lemma InnerOf(open: char, t: string, close: char)
    ensures Inner([open] + t + [close]) == t
  {
  }

  /** A printed value is recognized by its first and last characters. */
  lemma ValueRoundTrip(a: Arg)
    requires PrintableValue(a)
    ensures var v := Flat(ValueDoc(a));
            && v != ""
            && ParseValue(v) == a
            && !(v[0] == '{' && v[|v| - 1] == '}')
            && (v[0] == '"' ==> !AllDigits(v))
  {
    match a
    case Num(n) =>
      NatRoundTrip(n);
      assert IsDigit(PrintNat(n)[0]);
    case Str(s) => InnerOf('"', s, '"');
    case List(items) =>
      InnerOf('[', Flat(Join(QuotedDocs(items))), ']');
      ListRoundTrip(items);
  }

  lemma {:induction false} PutNewField(fs: seq<Field>, f: Field)
    requires forall i | 0 <= i < |fs| :: fs[i].key != f.key
    ensures PutField(fs, f) == fs + [f]
  {
    if fs != [] {
      PutNewField(fs[1..], f);
      assert fs == [fs[0]] + fs[1..];
    }
  }

  lemma FieldRoundTrip(f: Field)
    requires AllWord(f.key) && PrintableValue(f.value)
    ensures ParseField(Flat(FieldDoc(f))) == Some(f)
  {
    var v := Flat(ValueDoc(f.value));
    ValuePiece(f.value);
    ValueRoundTrip(f.value);
    KeyAndValue(f.key, v);
    assert Flat(FieldDoc(f)) == (f.key + ": ") + v;
  }

  /** Cutting a property at its colon gives back key and value. */
  lemma KeyAndValue(key: string, v: string)
    requires AllWord(key) && Trimmed(v)
    ensures var prop := (key + ": ") + v;
            && IndexOf(prop, ':') == Some(|key|)
            && RemoveQuotes(Trim(prop[..|key|])) == key
            && Trim(prop[|key| + 1..]) == v
  {
    WordsArePlain(key);
    var prop := (key + ": ") + v;
    assert prop == key + [':'] + (" " + v);
    IndexOfAfter(key, ':', " " + v);
    assert prop[..|key|] == key && prop[|key| + 1..] == " " + v;
    TrimKeeps(key);
    RemoveQuotesKeeps(key);
    TrimKeeps(v);
  }

  lemma {:induction false} FlatsOfFields(fs: seq<Field>)
    ensures |Flats(FieldDocs(fs))| == |fs|
    ensures forall i | 0 <= i < |fs| :: Flats(FieldDocs(fs))[i] == Flat(FieldDoc(fs[i]))
  {
    if fs != [] {
      FlatsOfFields(fs[1..]);
      assert FieldDocs(fs)[1..] == FieldDocs(fs[1..]);
    }
  }

  lemma PutLastField(fs: seq<Field>, n: nat)
    requires PrintableFields(fs) && 0 < n <= |fs|
    ensures PutField(fs[..n - 1], fs[n - 1]) == fs[..n]
  {
    PutNewField(fs[..n - 1], fs[n - 1]);
    assert fs[..n] == fs[..n - 1] + [fs[n - 1]];
  }

  lemma ParseFieldsStep(pieces: seq<string>, n: nat, f: Field)
    requires 0 < n <= |pieces| && ParseField(pieces[n - 1]) == Some(f)
    ensures ParseFields(pieces[..n]) == PutField(ParseFields(pieces[..n - 1]), f)
  {
    assert pieces[..n][..n - 1] == pieces[..n - 1];
  }

  lemma {:induction false} FieldsRoundTrip(fs: seq<Field>, n: nat)
    requires PrintableFields(fs) && n <= |fs|
    ensures |Flats(FieldDocs(fs))| == |fs| && ParseFields(Flats(FieldDocs(fs))[..n]) == fs[..n]
  {
    FlatsOfFields(fs);
    if n > 0 {
      FieldsRoundTrip(fs, n - 1);
      FieldRoundTrip(fs[n - 1]);
      ParseFieldsStep(Flats(FieldDocs(fs)), n, fs[n - 1]);
      PutLastField(fs, n);
    }
  }

  lemma LiteralRoundTrip(fs: seq<Field>)
    requires PrintableFields(fs)
    ensures ParseFields(Split(Trim(Flat(Join(FieldDocs(fs)))))) == fs
  {
    FieldPieces(fs);
    JoinTrimmed(FieldDocs(fs));
    TrimKeeps(Flat(Join(FieldDocs(fs))));
    SplitJoin(FieldDocs(fs));
    FieldsRoundTrip(fs, |fs|);
    assert Flats(FieldDocs(fs))[..|fs|] == Flats(FieldDocs(fs)) && fs[..|fs|] == fs;
  }

  lemma {:induction false} JoinTrimmed(ds: seq<Doc>)
    requires Pieces(ds)
    ensures Trimmed(Flat(Join(ds)))
    ensures ds != [] ==> Flat(Join(ds)) != ""
  {
    if |ds| > 1 {
      JoinTrimmed(ds[1..]);
      var t, r := Flat(ds[0]), Flat(Join(ds[1..]));
      assert Flat(Cat(Chars(", "), Join(ds[1..]))) == ", " + r;
      var all := t + (", " + r);
      assert all[0] == t[0] && all[|all| - 1] == r[|r| - 1];
    }
  }

  // ---------- several arguments ----------

  /** The text of the first argument, and of the others behind it. */
  lemma ArgsTextNext(args: seq<Arg>)
    requires |args| > 1
    ensures Flat(ArgsDoc(args)) == Flat(ArgDoc(args[0])) + ([','] + ([' '] + Flat(ArgsDoc(args[1..]))))
  {
    assert ArgDocs(args)[1..] == ArgDocs(args[1..]);
    assert Flat(Cat(Chars(", "), ArgsDoc(args[1..]))) == [','] + ([' '] + Flat(ArgsDoc(args[1..])));
  }

  lemma ArgsTextOne(args: seq<Arg>)
    requires |args| == 1
    ensures Flat(ArgsDoc(args)) == Flat(ArgDoc(args[0]))
  {
    assert ArgDocs(args[1..]) == [];
  }

  /** The first and the last character of printed arguments are those of the first and the last argument. */
  lemma {:induction false} ArgsEnds(args: seq<Arg>, literals: bool)
    requires PrintableEach(args, literals) && args != []
    ensures var t, f, l := Flat(ArgsDoc(args)), Flat(ArgDoc(args[0])), Flat(ArgDoc(args[|args| - 1]));
            t != "" && f != "" && l != "" && t[0] == f[0] && t[|t| - 1] == l[|l| - 1]
  {
    EachBehind(args, literals);
    ArgPiece(args[0], literals);
    if |args| == 1 {
      ArgsTextOne(args);
    } else {
      ArgsEnds(args[1..], literals);
      ArgsTextNext(args);
      EndsOfPair(Flat(ArgDoc(args[0])), Flat(ArgsDoc(args[1..])));
    }
  }

  lemma EndsOfPair(f: string, r: string)
    requires f != "" && r != ""
    ensures var t := f + ([','] + ([' '] + r)); t != "" && t[0] == f[0] && t[|t| - 1] == r[|r| - 1]
  {
  }

  lemma DigitOrQuote(a: Arg)
    requires PrintableValue(a) && (a.Num? || a.Str?)
    ensures var t := Flat(ArgDoc(a));
            && t != ""
            && (if a.Num? then IsDigit(t[0]) && IsDigit(t[|t| - 1]) else t[0] == '"' && t[|t| - 1] == '"')
  {
    if a.Num? {
      NatRoundTrip(a.n);
    }
  }

  lemma ScalarRoundTrip(a: Arg, cur: string)
    requires PrintableValue(a) && Scalar(a) && (cur == "" || cur == " ")
    ensures ',' !in cur + Flat(ArgDoc(a)) && ParseScalar(Trim(cur + Flat(ArgDoc(a)))) == a
  {
    var t := Flat(ArgDoc(a));
    ValuePiece(a);
    TrimKeeps(t);
    assert "" + t == t;
    if a.Num? {
      NumberAlone(a.n);
    } else {
      StringAlone(a.s);
    }
  }

  lemma NumberAlone(n: nat)
    ensures var t := PrintNat(n); ',' !in t && ParseScalar(t) == Num(n)
  {
    NatRoundTrip(n);
    var t := PrintNat(n);
    forall i | 0 <= i < |t| ensures t[i] != ',' { assert IsDigit(t[i]); }
  }

  lemma StringAlone(s: string)
    requires ',' !in s
    ensures var t := ['"'] + s + ['"']; ',' !in t && ParseScalar(t) == Str(s)
  {
    var t := ['"'] + s + ['"'];
    assert !AllDigits(t) by { assert !IsDigit(t[0]); }
    InnerOf('"', s, '"');
  }

  lemma ParseScalarsNext(s: string, rest: seq<string>)
    ensures ParseScalars([s] + rest) == [ParseScalar(Trim(s))] + ParseScalars(rest)
  {
  }

  /** Cutting printed scalars at the commas gives them back. */
  lemma {:induction false} ScalarsRoundTrip(args: seq<Arg>, cur: string)
    requires args != [] && (cur == "" || cur == " ")
    requires forall i | 0 <= i < |args| :: PrintableValue(args[i]) && Scalar(args[i])
    ensures ParseScalars(SplitOn(cur + Flat(ArgsDoc(args)), ',')) == args
    decreases |args|
  {
    var t := Flat(ArgDoc(args[0]));
    ScalarRoundTrip(args[0], cur);
    if |args| == 1 {
      ArgsTextOne(args);
      LastScalar(cur + t, args[0]);
      assert args == [args[0]];
    } else {
      var r := Flat(ArgsDoc(args[1..]));
      ArgsTextNext(args);
      ScalarsRoundTrip(args[1..], " ");
      NextScalar(cur, t, r, args[0], args[1..]);
      assert args == [args[0]] + args[1..];
    }
  }

  lemma LastScalar(t: string, a: Arg)
    requires ',' !in t && ParseScalar(Trim(t)) == a
    ensures ParseScalars(SplitOn(t, ',')) == [a]
  {
    SplitOnNone(t, ',');
    assert [t][1..] == [];
  }

  lemma CommaBehind(cur: string, t: string, r: string)
    ensures cur + (t + ([','] + r)) == (cur + t) + [','] + r
  {
  }

  lemma NextScalar(cur: string, t: string, r: string, a: Arg, rest: seq<Arg>)
    requires ',' !in cur + t && ParseScalar(Trim(cur + t)) == a && ParseScalars(SplitOn(" " + r, ',')) == rest
    ensures ParseScalars(SplitOn(cur + (t + ([','] + ([' '] + r))), ',')) == [a] + rest
  {
    CommaBehind(cur, t, " " + r);
    SplitOnFirst(cur + t, ',', " " + r);
    ParseScalarsNext(cur + t, SplitOn(" " + r, ','));
  }

  /** The branch for several arguments is taken, unless they begin and end with a string. */
  lemma SeveralScalars(args: seq<Arg>)
    requires |args| > 1 && PrintableEach(args, true) && Separable(args)
    ensures var a := Flat(ArgsDoc(args));
            && a != "" && a[0] != '[' && a[0] != '{' && !AllDigits(a)
            && !(a[0] == '"' && a[|a| - 1] == '"')
            && ParseScalars(SplitOn(a, ',')) == args
  {
    var a, n := Flat(ArgsDoc(args)), |args| - 1;
    assert Scalar(args[0]) && PrintableArg(args[0], true) && Scalar(args[n]) && PrintableArg(args[n], true);
    forall i | 0 <= i < |args| ensures PrintableValue(args[i]) && Scalar(args[i]) {
      assert PrintableArg(args[i], true);
    }
    ArgsEnds(args, true);
    DigitOrQuote(args[0]);
    DigitOrQuote(args[n]);
    ArgsTextNext(args);
    assert a[|Flat(ArgDoc(args[0]))|] == ',';
    ScalarsRoundTrip(args, "");
    assert "" + a == a;
  }

  lemma OneArgument(arg: Arg, literals: bool)
    requires PrintableArg(arg, literals)
    ensures var a := Flat(ArgDoc(arg));
            && a != ""
            && (if arg.Literal? then a[0] == '{' && a[|a| - 1] == '}' && ParseFields(Split(Trim(Inner(a)))) == arg.fields
                else !(a[0] == '{' && a[|a| - 1] == '}') && (a[0] == '"' ==> !AllDigits(a)) && ParseValue(a) == arg)
  {
    if arg.Literal? {
      InnerOf('{', Flat(Join(FieldDocs(arg.fields))), '}');
      LiteralRoundTrip(arg.fields);
    } else {
      ValueRoundTrip(arg);
    }
  }

  /** Printed arguments are read back, by the simple and by the complex argument parser. */
  lemma ArgsRoundTrip(args: seq<Arg>, literals: bool)
    requires PrintableArgs(args, literals)
    ensures (!literals ==> ParseArguments(ArgsText(args)) == args) && ParseComplexArguments(ArgsText(args)) == args
  {
    var a := Flat(ArgsDoc(args));
    ArgsOk(args, literals);
    InnerOf('(', a, ')');
    TrimKeeps(a);
    if |args| == 1 {
      assert args == [args[0]] && PrintableArg(args[0], literals);
      ArgsTextOne(args);
      OneArgument(args[0], literals);
    } else if |args| > 1 {
      forall i | 0 <= i < |args| ensures PrintableArg(args[i], true) { assert PrintableArg(args[i], literals); }
      SeveralScalars(args);
    }
  }

  // ---------- exactly which argument lists come back ----------

  function Count(s: string, c: char): nat {
    if s == "" then 0 else (if s[0] == c then 1 else 0) + Count(s[1..], c)
  }

  lemma {:induction false} CountConcat(a: string, b: string, c: char)
    ensures Count(a + b, c) == Count(a, c) + Count(b, c)
  {
    if a == "" {
      assert a + b == b;
    } else {
      assert (a + b)[1..] == a[1..] + b;
      CountConcat(a[1..], b, c);
    }
  }

  lemma {:induction false} CountOf(s: string, c: char)
    requires c in s
    ensures Count(s, c) > 0
  {
    if s[0] != c {
      assert c in s[1..];
      CountOf(s[1..], c);
    }
  }

  /** A split makes one piece more than there are separators. */
  lemma {:induction false} SplitCount(s: string, c: char)
    ensures |SplitOn(s, c)| == Count(s, c) + 1
  {
    if s != "" {
      SplitCount(s[1..], c);
    }
  }

  /** Printed arguments hold the commas between them and those within each of them. */
  lemma {:induction false} CommasOfArgs(args: seq<Arg>, k: nat)
    requires k < |args|
    ensures Count(Flat(ArgsDoc(args)), ',') >= |args| - 1 + Count(Flat(ArgDoc(args[k])), ',')
    decreases |args|
  {
    if |args| == 1 {
      ArgsTextOne(args);
    } else {
      var t, r := Flat(ArgDoc(args[0])), Flat(ArgsDoc(args[1..]));
      ArgsTextNext(args);
      CountConcat(t, [','] + ([' '] + r), ',');
      CountNext(r);
      CommasOfArgs(args[1..], if k == 0 then 0 else k - 1);
    }
  }

  lemma CountNext(r: string)
    ensures Count([','] + ([' '] + r), ',') == 1 + Count(r, ',')
  {
    assert ([','] + ([' '] + r))[1..] == [' '] + r;
    assert ([' '] + r)[1..] == r;
  }

  lemma {:induction false} ScalarsOnly(parts: seq<string>)
    ensures |ParseScalars(parts)| == |parts|
    ensures forall i | 0 <= i < |parts| :: ParseScalars(parts)[i].Num? || ParseScalars(parts)[i].Str?
  {
    if parts != [] {
      ScalarsOnly(parts[1..]);
    }
  }

  /** Lists and object literals never come out of a cut at the commas, and a comma in a string makes too many pieces. */
  lemma NotScalarsOf(args: seq<Arg>, k: nat)
    requires k < |args| && !Scalar(args[k])
    ensures ParseScalars(SplitOn(Flat(ArgsDoc(args)), ',')) != args
  {
    var a := Flat(ArgsDoc(args));
    ScalarsOnly(SplitOn(a, ','));
    if args[k].Str? {
      SplitCount(a, ',');
      CommasOfArgs(args, k);
      CountOf(Flat(ArgDoc(args[k])), ',') by { assert Flat(ArgDoc(args[k])) == ['"'] + args[k].s + ['"']; }
    }
  }

  /** Two or more arguments that begin and end with a string come back as one string. */
  lemma StringsMerge(args: seq<Arg>)
    requires PrintableEach(args, true) && |args| > 1 && args[0].Str? && args[|args| - 1].Str?
    ensures ParseArguments(ArgsText(args)) == ParseComplexArguments(ArgsText(args)) == [Str(Inner(Flat(ArgsDoc(args))))]
  {
    var a := Flat(ArgsDoc(args));
    assert PrintableArg(args[0], true) && PrintableArg(args[|args| - 1], true);
    ArgsOk(args, true);
    InnerOf('(', a, ')');
    TrimKeeps(a);
    ArgsEnds(args, true);
    DigitOrQuote(args[0]);
    DigitOrQuote(args[|args| - 1]);
  }

  lemma NotSeparable(args: seq<Arg>)
    requires PrintableEach(args, true) && !Separable(args)
    ensures ParseArguments(ArgsText(args)) != args && ParseComplexArguments(ArgsText(args)) != args
  {
    var a := Flat(ArgsDoc(args));
    ArgsOk(args, true);
    InnerOf('(', a, ')');
    TrimKeeps(a);
    if args[0].Str? && args[|args| - 1].Str? {
      StringsMerge(args);
    } else {
      var k :| 0 <= k < |args| && !Scalar(args[k]);
      NotScalarsOf(args, k);
    }
  }

  /**
    The arguments that come back, among all lists of printable ones: none or one, or several
    numbers and strings without commas that do not both begin and end with a string.
   */
  lemma ArgsComeBack(args: seq<Arg>, literals: bool)
    requires PrintableEach(args, literals)
    ensures !literals ==> (ParseArguments(ArgsText(args)) == args <==> Separable(args))
    ensures ParseComplexArguments(ArgsText(args)) == args <==> Separable(args)
  {
    if Separable(args) {
      ArgsRoundTrip(args, literals);
    } else {
      forall i | 0 <= i < |args| ensures PrintableArg(args[i], true) { assert PrintableArg(args[i], literals); }
      NotSeparable(args);
    }
  }

  lemma PrintedPair(a: Arg, b: Arg)
    ensures Flat(ArgsDoc([a, b])) == Flat(ArgDoc(a)) + ([','] + ([' '] + Flat(ArgDoc(b))))
  {
    ArgsTextNext([a, b]);
    ArgsTextOne([a, b][1..]);
  }

  const BETWEEN := "\", \""

  /** So two strings become one, with the quotes and the comma between them. */
  lemma TwoStringsMerge(a: string, b: string)
    requires AllInside(a) && AllInside(b)
    ensures ArgsText([Str(a), Str(b)]) == ['('] + (['"'] + (a + BETWEEN + b) + ['"']) + [')']
    ensures ParseArguments(ArgsText([Str(a), Str(b)])) == [Str(a + BETWEEN + b)]
  {
    PrintedPair(Str(a), Str(b));
    StringsMerge([Str(a), Str(b)]);
    QuotedPair(a, b);
    InnerOf('"', a + BETWEEN + b, '"');
  }

  lemma QuotedPair(a: string, b: string)
    ensures (['"'] + a + ['"']) + ([','] + ([' '] + (['"'] + b + ['"']))) == ['"'] + (a + BETWEEN + b) + ['"']
  {
    var q := ['"'];
    assert q + ([','] + ([' '] + q)) == BETWEEN;
    assert (q + a + q) + ([','] + ([' '] + (q + b + q))) == q + (a + (q + ([','] + ([' '] + q))) + b) + q;
  }
}
