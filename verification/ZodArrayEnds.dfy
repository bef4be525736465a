/**
  What an array of objects comes out as when the modifiers of the object hold a brace and its
  properties are none, or end in an object with modifiers. The captured text is cut into pieces;
  a piece of the modifiers is dropped if it has no colon, and is a parse error if it has one.
 */
module ZodArrayEnds {
  import opened Common
  import opened ZodText
  import opened ZodParser
  import opened ZodPrinter
  import opened ZodRoundTrip
  import opened ZodArrays

  // ---------- a colon in front of a printed value ----------

  /** A character that begins a printed value or ends a printed string. */
  predicate Marker(c: char) {
    IsDigit(c) || c == '"' || c == '['
  }

  /** Text with a colon, and between this and the next dot a marker: no type follows the colon. */
  ghost predicate Doomed(cur: string) {
    exists c: string, u: string, m: char, w: string ::
      cur == (c + [':']) + ((u + [m]) + w) && ':' !in c && '.' !in u && Marker(m)
  }

  lemma DoomedBy(cur: string, c: string, u: string, m: char, w: string)
    requires cur == (c + [':']) + ((u + [m]) + w) && ':' !in c && '.' !in u && Marker(m)
    ensures Doomed(cur)
  {
  }

  lemma StaysDoomed(cur: string, more: string)
    requires Doomed(cur)
    ensures Doomed(cur + more)
  {
    var c: string, u: string, m: char, w: string :|
      cur == (c + [':']) + ((u + [m]) + w) && ':' !in c && '.' !in u && Marker(m);
    assert cur + more == (c + [':']) + ((u + [m]) + (w + more));
    DoomedBy(cur + more, c, u, m, w + more);
  }

  lemma {:induction false} TrimEndKeeps(a: string, m: char, w: string) returns (w': string)
    requires !IsSpace(m)
    ensures TrimEnd((a + [m]) + w) == (a + [m]) + w'
    decreases |w|
  {
    var s := (a + [m]) + w;
    if w != "" && IsSpace(w[|w| - 1]) {
      assert s[..|s| - 1] == (a + [m]) + w[..|w| - 1];
      w' := TrimEndKeeps(a, m, w[..|w| - 1]);
    } else {
      w' := w;
      assert s[|s| - 1] == if w == "" then m else w[|w| - 1];
    }
  }

  lemma {:induction false} TrimStartKeeps(a: string, m: char, w: string) returns (a': string)
    requires !IsSpace(m)
    ensures TrimStart((a + [m]) + w) == (a' + [m]) + w
    ensures forall x | x in a' :: x in a
    decreases |a|
  {
    var s := (a + [m]) + w;
    if a != "" && IsSpace(a[0]) {
      assert s[1..] == (a[1..] + [m]) + w;
      a' := TrimStartKeeps(a[1..], m, w);
    } else {
      a' := a;
      assert s[0] == if a == "" then m else a[0];
    }
  }

  /** Trimming around a character that is no space. */
  lemma TrimAround(a: string, m: char, w: string) returns (a': string, w': string)
    requires !IsSpace(m)
    ensures Trim((a + [m]) + w) == (a' + [m]) + w' && forall x | x in a' :: x in a
  {
    a' := TrimStartKeeps(a, m, w);
    w' := TrimEndKeeps(a', m, w);
  }

  /** The part in front of the first dot. */
  lemma {:induction false} FirstPart(u: string, m: char, w: string) returns (r: string)
    requires '.' !in u && m != '.'
    ensures SplitOn((u + [m]) + w, '.')[0] == (u + [m]) + r
    decreases |u|
  {
    var s := (u + [m]) + w;
    if u == "" {
      assert s[1..] == w;
      r := SplitOn(w, '.')[0];
    } else {
      assert s[1..] == (u[1..] + [m]) + w;
      r := FirstPart(u[1..], m, w);
      assert [u[0]] + ((u[1..] + [m]) + r) == (u + [m]) + r;
    }
  }

  /** Text with a marker in front of its first dot is no type. */
  lemma MarkedIsNoType(u: string, m: char, w: string)
    requires '.' !in u && Marker(m)
    ensures ParseZodType((u + [m]) + w).Err?
  {
    var s := (u + [m]) + w;
    var r := FirstPart(u, m, w);
    var a, b := TrimAround(u, m, r);
    NoKeyword(u, m, w);
    assert Trim(SplitOn(s, '.')[0]) == (a + [m]) + b;
    assert ((a + [m]) + b)[|a|] == m;
    assert ParseBase(s) == Err(NotZod);
  }

  lemma NoKeyword(u: string, m: char, w: string)
    requires '.' !in u && Marker(m)
    ensures !(Z_OBJECT <= (u + [m]) + w) && !(Z_ARRAY <= (u + [m]) + w)
  {
    var s := (u + [m]) + w;
    assert s[|u|] == m;
    if |u| >= 2 { assert s[1] == u[1]; }
  }

  lemma DoomedFails(cur: string)
    requires Doomed(cur)
    ensures PieceFails(Trim(cur))
  {
    var c: string, u: string, m: char, w: string :|
      cur == (c + [':']) + ((u + [m]) + w) && ':' !in c && '.' !in u && Marker(m);
    var c' := TrimStartKeeps(c, ':', (u + [m]) + w);
    var w' := TrimEndKeeps((c' + [':']) + u, m, w);
    assert (c' + [':']) + ((u + [m]) + w) == ((c' + [':']) + u + [m]) + w;
    var piece := (c' + [':']) + ((u + [m]) + w');
    assert Trim(cur) == piece by { assert ((c' + [':']) + u + [m]) + w' == piece; }
    IndexOfAfter(c', ':', (u + [m]) + w');
    assert piece[|c'| + 1..] == (u + [m]) + w';
    var u', w'' := TrimAround(u, m, w');
    MarkedIsNoType(u', m, w'');
  }

  // ---------- pieces of the modifiers ----------

  /** What becomes of a piece: without a colon it is dropped, with one it fails. */
  ghost predicate ColonFails(piece: string) {
    ':' in piece ==> PieceFails(piece)
  }

  /** So for all pieces, but for the first one unless `armed`. */
  ghost predicate ColonsFail(pieces: seq<string>, armed: bool) {
    forall i | (if armed then 0 else 1) <= i < |pieces| :: ColonFails(pieces[i])
  }

  /** What a scan has collected for the current piece, if that counts. */
  ghost predicate Good(cur: string, armed: bool) {
    armed ==> ':' !in cur || Doomed(cur)
  }

  lemma {:induction false} TrimHasNoMore(s: string)
    ensures forall x | x in Trim(s) :: x in s
  {
    StartHasNoMore(s);
    EndHasNoMore(TrimStart(s));
  }

  lemma {:induction false} StartHasNoMore(s: string)
    ensures forall x | x in TrimStart(s) :: x in s
  {
    if s != "" && IsSpace(s[0]) {
      StartHasNoMore(s[1..]);
    }
  }

  lemma {:induction false} EndHasNoMore(s: string)
    ensures forall x | x in TrimEnd(s) :: x in s
  {
    if s != "" && IsSpace(s[|s| - 1]) {
      EndHasNoMore(s[..|s| - 1]);
    }
  }

  lemma GoodPiece(cur: string, armed: bool)
    requires Good(cur, armed)
    ensures armed ==> ColonFails(Trim(cur))
  {
    if armed {
      TrimHasNoMore(cur);
      if Doomed(cur) { DoomedFails(cur); }
    }
  }

  lemma GoodMore(cur: string, armed: bool, more: string)
    requires Good(cur, armed) && ':' !in more
    ensures Good(cur + more, armed)
  {
    if armed && Doomed(cur) { StaysDoomed(cur, more); }
  }

  /** Behind a value, the colon in front of it has found its marker. */
  lemma GoodValue(cur: string, armed: bool, key: string, m: char, w: string)
    requires Good(cur, armed) && ':' !in key && Marker(m)
    ensures Good((cur + (key + ": ")) + ([m] + w), armed)
  {
    if armed {
      assert (cur + (key + ": ")) + ([m] + w) == cur + ((key + ": ") + ([m] + w));
      if ':' !in cur {
        assert (cur + (key + ": ")) + ([m] + w) == ((cur + key) + [':']) + ((" " + [m]) + w);
        DoomedBy((cur + (key + ": ")) + ([m] + w), cur + key, " ", m, w);
      } else {
        StaysDoomed(cur, (key + ": ") + ([m] + w));
      }
    }
  }

  lemma GoodString(cur: string, armed: bool, s: string)
    requires Good(cur, armed) && AllInside(s)
    ensures Good(cur + (['"'] + s + ['"']), armed)
  {
    if armed && ':' in s && ':' !in cur {
      var k := IndexOf(s, ':');
      FirstColon(s);
      var s1, s2 := s[..k.value], s[k.value + 1..];
      assert s == s1 + [':'] + s2;
      forall i | 0 <= i < |s2| ensures s2[i] != '.' { assert Inside(s[k.value + 1 + i]); }
      assert cur + (['"'] + s + ['"']) == ((cur + ['"'] + s1) + [':']) + ((s2 + ['"']) + "");
      DoomedBy(cur + (['"'] + s + ['"']), cur + ['"'] + s1, s2, '"', "");
    } else if armed && ':' in cur {
      StaysDoomed(cur, ['"'] + s + ['"']);
    }
  }

  lemma {:induction false} FirstColon(s: string)
    requires ':' in s
    ensures IndexOf(s, ':').Some? && ':' !in s[..IndexOf(s, ':').value]
  {
    if s[0] != ':' {
      FirstColon(s[1..]);
      var k := IndexOf(s[1..], ':').value;
      assert s[..k + 1] == [s[0]] + s[1..][..k];
    }
  }

  // ---------- the scan keeps it so ----------

  /** Where a scan stands: what it has collected, whether the current piece counts, and the depth. */
  datatype At = At(cur: string, armed: bool, depth: int)

  /** The scan of `s` is fine if that of the rest is, from where it goes on. */
  ghost predicate Leads(s: string, from: At, rest: string, to: At) {
    && Good(to.cur, to.armed)
    && (Fine(rest, to) ==> Fine(s, from))
  }

  ghost predicate Fine(s: string, at: At) {
    ColonsFail(Scan(s, at.cur, at.depth, Out), at.armed)
  }

  lemma CutLeads(t: string, tail: seq<string>, armed: bool)
    requires (armed ==> ColonFails(t)) && ColonsFail(tail, true)
    ensures ColonsFail([t] + tail, armed)
  {
  }

  lemma OneLeads(c: char, rest: string, from: At) returns (to: At)
    requires !(c == ',' && from.depth == 0) && c != ':' && !IsQuote(c) && Good(from.cur, from.armed)
    ensures to == At(from.cur + [c], from.armed, NextDepth(from.depth, Out, c))
    ensures Leads([c] + rest, from, rest, to)
  {
    to := At(from.cur + [c], from.armed, NextDepth(from.depth, Out, c));
    ScanOne(c, rest, from.cur, from.depth, Out);
    GoodMore(from.cur, from.armed, [c]);
  }

  lemma {:induction false} PlainLeads(s: string, rest: string, from: At) returns (to: At)
    requires (forall i | 0 <= i < |s| :: Plain(s[i]) && s[i] != ':') && Good(from.cur, from.armed)
    ensures Leads(s + rest, from, rest, to) && to.depth == from.depth
    decreases |s|
  {
    if s == "" {
      assert s + rest == rest;
      to := from;
    } else {
      var c, s' := s[0], s[1..];
      assert s + rest == [c] + (s' + rest);
      forall i | 0 <= i < |s'| ensures Plain(s'[i]) && s'[i] != ':' { assert s'[i] == s[i + 1]; }
      if c == ',' && from.depth == 0 {
        ScanCut(s' + rest, from.cur);
        GoodPiece(from.cur, from.armed);
        to := PlainLeads(s', rest, At("", true, 0));
        if Fine(rest, to) {
          CutLeads(Trim(from.cur), Scan(s' + rest, "", 0, Out), from.armed);
        }
      } else {
        var next := OneLeads(c, s' + rest, from);
        to := PlainLeads(s', rest, next);
      }
    }
  }

  /** A key in front of a printed value. */
  predicate Headed(a: Doc, b: Doc) {
    && a.Chars? && |a.s| > 2 && AllWord(a.s[..|a.s| - 2]) && a.s == a.s[..|a.s| - 2] + ": "
    && (b.Quoted? || (b.Chars? && AllDigits(b.s)) || (b.Group? && b.open == '['))
  }

  /** Every colon outside strings stands between a key and its value. */
  predicate Coloned(d: Doc) {
    match d
    case Chars(s) => ':' !in s
    case Quoted(_) => true
    case Group(_, inner, _) => Coloned(inner)
    case Cat(a, b) => Coloned(b) && (Headed(a, b) || Coloned(a))
  }

  lemma QuotedLeads(s: string, rest: string, from: At) returns (to: At)
    requires AllInside(s) && Good(from.cur, from.armed)
    ensures Leads((['"'] + s + ['"']) + rest, from, rest, to) && to.depth == from.depth
  {
    to := At(from.cur + (['"'] + s + ['"']), from.armed, from.depth);
    ScanQuoted(s, rest, from.cur, from.depth);
    GoodString(from.cur, from.armed, s);
  }

  /** A key is passed; the colon behind it has to wait for its value. */
  lemma ScanKey(key: string, rest: string, cur: string, depth: int)
    requires AllWord(key)
    ensures Scan((key + ": ") + rest, cur, depth, Out) == Scan(rest, cur + (key + ": "), depth, Out)
  {
    WordsArePlain(key);
    var k := key + ": ";
    forall i | 0 <= i < |k| ensures Plain(k[i]) && k[i] != ',' { if i < |key| { assert k[i] == key[i]; } }
    ScanPlain(k, rest, cur, depth);
  }

  lemma KeyHasNoColon(key: string)
    requires AllWord(key)
    ensures ':' !in key
  {
    WordsArePlain(key);
  }

  lemma KeyedLeads(key: string, m: char, w: string, rest: string, from: At) returns (to: At)
    requires AllWord(key) && Marker(m) && Good(from.cur, from.armed)
    requires forall cur: string :: Scan(([m] + w) + rest, cur, from.depth, Out) == Scan(rest, cur + ([m] + w), from.depth, Out)
    ensures Leads(((key + ": ") + ([m] + w)) + rest, from, rest, to) && to.depth == from.depth
  {
    ScanKey(key, ([m] + w) + rest, from.cur, from.depth);
    KeyHasNoColon(key);
    assert ((key + ": ") + ([m] + w)) + rest == (key + ": ") + (([m] + w) + rest);
    GoodValue(from.cur, from.armed, key, m, w);
    to := At((from.cur + (key + ": ")) + ([m] + w), from.armed, from.depth);
  }

  lemma KeyedNumberLeads(key: string, s: string, rest: string, from: At) returns (to: At)
    requires AllWord(key) && AllDigits(s) && Good(from.cur, from.armed)
    ensures Leads(((key + ": ") + s) + rest, from, rest, to) && to.depth == from.depth
  {
    assert s == [s[0]] + s[1..] && IsDigit(s[0]);
    forall cur: string ensures Scan(s + rest, cur, from.depth, Out) == Scan(rest, cur + s, from.depth, Out) {
      forall i | 0 <= i < |s| ensures Plain(s[i]) && s[i] != ',' { assert IsDigit(s[i]); }
      ScanPlain(s, rest, cur, from.depth);
    }
    to := KeyedLeads(key, s[0], s[1..], rest, from);
  }

  lemma KeyedStringLeads(key: string, s: string, rest: string, from: At) returns (to: At)
    requires AllWord(key) && AllInside(s) && Good(from.cur, from.armed)
    ensures Leads(((key + ": ") + (['"'] + s + ['"'])) + rest, from, rest, to) && to.depth == from.depth
  {
    var q := ['"'] + s + ['"'];
    assert q == ['"'] + (s + ['"']);
    forall cur: string ensures Scan(q + rest, cur, from.depth, Out) == Scan(rest, cur + q, from.depth, Out) {
      ScanQuoted(s, rest, cur, from.depth);
    }
    to := KeyedLeads(key, '"', s + ['"'], rest, from);
  }

  /** The opening bracket of a list is a marker. */
  lemma KeyedOpenLeads(key: string, rest: string, from: At) returns (to: At)
    requires AllWord(key) && Good(from.cur, from.armed)
    ensures Leads((key + ": ") + (['['] + rest), from, rest, to) && to.depth == from.depth + 1
  {
    ScanKey(key, ['['] + rest, from.cur, from.depth);
    ScanOne('[', rest, from.cur + (key + ": "), from.depth, Out);
    KeyHasNoColon(key);
    GoodValue(from.cur, from.armed, key, '[', "");
    to := At((from.cur + (key + ": ")) + ['['], from.armed, from.depth + 1);
    assert ['['] + "" == ['['];
  }

  lemma {:induction false} DocLeads(d: Doc, rest: string, from: At) returns (to: At)
    requires WellNested(d) && Coloned(d) && Good(from.cur, from.armed)
    ensures Leads(Flat(d) + rest, from, rest, to) && to.depth == from.depth
    decreases d, 1
  {
    match d
    case Chars(s) => to := PlainLeads(s, rest, from);
    case Quoted(s) => to := QuotedLeads(s, rest, from);
    case Group(open, inner, close) =>
      FlatGroup(open, Flat(inner), close, rest, "");
      var next := OneLeads(open, Flat(inner) + ([close] + rest), from);
      to := InnerLeads(inner, close, rest, next);
    case Cat(a, b) =>
      if Headed(a, b) {
        to := HeadedLeads(a, b, rest, from);
      } else {
        FlatCat(Flat(a), Flat(b), rest, "");
        var next := DocLeads(a, Flat(b) + rest, from);
        to := DocLeads(b, rest, next);
      }
  }

  lemma {:induction false} InnerLeads(inner: Doc, close: char, rest: string, from: At) returns (to: At)
    requires WellNested(inner) && Coloned(inner) && Closing(close) && Good(from.cur, from.armed)
    ensures Leads(Flat(inner) + ([close] + rest), from, rest, to) && to.depth == from.depth - 1
    decreases inner, 2
  {
    var next := DocLeads(inner, [close] + rest, from);
    to := OneLeads(close, rest, next);
  }

  lemma {:induction false} HeadedLeads(a: Doc, b: Doc, rest: string, from: At) returns (to: At)
    requires WellNested(b) && Coloned(b) && Headed(a, b) && Good(from.cur, from.armed)
    ensures Leads(Flat(Cat(a, b)) + rest, from, rest, to) && to.depth == from.depth
    decreases Cat(a, b), 0
  {
    var key := a.s[..|a.s| - 2];
    match b
    case Chars(s) => to := KeyedNumberLeads(key, s, rest, from);
    case Quoted(s) => to := KeyedStringLeads(key, s, rest, from);
    case Group(open, inner, close) =>
      FlatGroup(open, Flat(inner), close, rest, "");
      FlatCat(key + ": ", Flat(b), rest, "");
      var next := KeyedOpenLeads(key, Flat(inner) + ([close] + rest), from);
      to := InnerLeads(inner, close, rest, next);
  }

  lemma {:induction false} ColonedJoin(ds: seq<Doc>)
    requires forall i | 0 <= i < |ds| :: Coloned(ds[i])
    ensures Coloned(Join(ds))
  {
    if |ds| > 1 {
      forall i | 0 <= i < |ds[1..]| ensures Coloned(ds[1..][i]) { assert ds[1..][i] == ds[i + 1]; }
      ColonedJoin(ds[1..]);
      assert Coloned(Cat(Chars(", "), Join(ds[1..])));
    }
  }

  lemma {:induction false} ColonedQuoted(items: seq<string>)
    ensures forall i | 0 <= i < |QuotedDocs(items)| :: Coloned(QuotedDocs(items)[i])
  {
    if items != [] {
      ColonedQuoted(items[1..]);
    }
  }

  lemma ColonedValue(a: Arg)
    requires PrintableValue(a)
    ensures Coloned(ValueDoc(a))
  {
    match a
    case Num(n) =>
      NatRoundTrip(n);
      var s := PrintNat(n);
      forall i | 0 <= i < |s| ensures s[i] != ':' { assert IsDigit(s[i]); }
    case Str(_) =>
    case List(items) =>
      ColonedQuoted(items);
      ColonedJoin(QuotedDocs(items));
  }

  lemma ColonedField(f: Field)
    requires AllWord(f.key) && PrintableValue(f.value)
    ensures Coloned(FieldDoc(f))
  {
    ColonedValue(f.value);
    if f.value.Num? { NatRoundTrip(f.value.n); }
    var k := f.key + ": ";
    assert k[..|k| - 2] == f.key;
    assert Headed(Chars(k), ValueDoc(f.value));
  }

  lemma {:induction false} ColonedFields(fs: seq<Field>)
    requires forall i | 0 <= i < |fs| :: AllWord(fs[i].key) && PrintableValue(fs[i].value)
    ensures forall i | 0 <= i < |FieldDocs(fs)| :: Coloned(FieldDocs(fs)[i])
  {
    if fs != [] {
      forall i | 0 <= i < |fs[1..]| ensures fs[1..][i] == fs[i + 1] { }
      ColonedFields(fs[1..]);
      ColonedField(fs[0]);
    }
  }

  lemma ColonedArg(a: Arg)
    requires PrintableArg(a, true)
    ensures Coloned(ArgDoc(a))
  {
    if a.Literal? {
      ColonedFields(a.fields);
      ColonedJoin(FieldDocs(a.fields));
    } else {
      ColonedValue(a);
    }
  }

  lemma ColonedArgs(args: seq<Arg>)
    requires PrintableEach(args, true)
    ensures Coloned(ArgsDoc(args))
  {
    ArgPieces(args, true);
    forall i | 0 <= i < |args| ensures Coloned(ArgDocs(args)[i]) { ColonedArg(args[i]); }
    ColonedJoin(ArgDocs(args));
  }

  lemma ColonedCall(name: string, args: seq<Arg>)
    requires AllWord(name) && PrintableArgs(args, true)
    ensures Coloned(CallDoc(name, args))
  {
    KeyHasNoColon(name);
    ColonedArgs(args);
    assert Coloned(Group('(', ArgsDoc(args), ')'));
  }

  lemma {:induction false} ColonedMods(mods: seq<Modifier>)
    requires PrintableMods(mods, true, true)
    ensures Coloned(ModsDoc(mods))
  {
    if mods != [] {
      ColonedCall(mods[0].name, mods[0].args);
      ColonedMods(mods[1..]);
      assert Coloned(Cat(CallDoc(mods[0].name, mods[0].args), ModsDoc(mods[1..])));
    }
  }

  /** The end of the scan. */
  lemma FineEnd(at: At)
    requires Good(at.cur, at.armed)
    ensures Fine("", at)
  {
    GoodPiece(at.cur, at.armed);
  }

  lemma FieldsFine(fs: seq<Field>, at: At)
    requires PrintableFields(fs) && Good(at.cur, at.armed)
    ensures Fine(Flat(Join(FieldDocs(fs))), at)
  {
    var l := Flat(Join(FieldDocs(fs)));
    FieldPieces(fs);
    JoinWellNested(FieldDocs(fs));
    ColonedFields(fs);
    ColonedJoin(FieldDocs(fs));
    var to := DocLeads(Join(FieldDocs(fs)), "", at);
    FineEnd(to);
    assert l + "" == l;
  }

  lemma LastFine(name: string, fs: seq<Field>, at: At)
    requires AllWord(name) && PrintableFields(fs) && Good(at.cur, at.armed)
    ensures Fine(['.'] + (name + ("({" + Flat(Join(FieldDocs(fs))))), at)
  {
    var l, dotted := Flat(Join(FieldDocs(fs))), ['.'] + name;
    WordsArePlain(name);
    forall i | 0 <= i < |dotted| ensures Plain(dotted[i]) && dotted[i] != ':' { if i > 0 { assert dotted[i] == name[i - 1]; } }
    assert ['.'] + (name + ("({" + l)) == dotted + (['('] + (['{'] + l));
    var at1 := PlainLeads(dotted, ['('] + (['{'] + l), at);
    var at2 := OneLeads('(', ['{'] + l, at1);
    var at3 := OneLeads('{', l, at2);
    FieldsFine(fs, at3);
  }

  /** The pieces of the captured modifiers: those with a colon fail. */
  lemma SwallowedFine(front: seq<Modifier>, name: string, fs: seq<Field>, at: At)
    requires PrintableMods(front, true, true) && AllWord(name) && PrintableFields(fs) && Good(at.cur, at.armed)
    ensures Fine(Swallowed(front, name, fs), at)
  {
    ModsWellNested(front, true, true);
    ColonedMods(front);
    var next := DocLeads(ModsDoc(front), ['.'] + (name + ("({" + Flat(Join(FieldDocs(fs))))), at);
    LastFine(name, fs, next);
  }

  // ---------- what the properties come out as ----------

  lemma {:induction false} NoColon(s: string)
    ensures IndexOf(s, ':') == None <==> ':' !in s
  {
    if s != "" && s[0] != ':' {
      NoColon(s[1..]);
    }
  }

  /** No piece from the n-th on has a colon. */
  predicate ColonFree(pieces: seq<string>, n: nat) {
    forall i | n <= i < |pieces| :: ':' !in pieces[i]
  }

  lemma DropOne(pieces: seq<string>, n: nat, props: seq<Prop>, bound: nat)
    requires (forall piece | piece in pieces :: |piece| <= bound) && n < |pieces| && ':' !in pieces[n]
    requires ParseProps(pieces[..n], bound) == Ok(props)
    ensures ParseProps(pieces[..n + 1], bound) == Ok(props)
  {
    var more := pieces[..n + 1];
    assert more[..|more| - 1] == pieces[..n] && more[|more| - 1] == pieces[n];
    NoColon(pieces[n]);
  }

  lemma {:induction false} DropAll(pieces: seq<string>, n: nat, m: nat, props: seq<Prop>, bound: nat)
    requires (forall piece | piece in pieces :: |piece| <= bound) && n <= m <= |pieces| && ColonFree(pieces, n)
    requires ParseProps(pieces[..n], bound) == Ok(props)
    ensures ParseProps(pieces[..m], bound) == Ok(props)
    decreases m
  {
    if m > n {
      DropAll(pieces, n, m - 1, props, bound);
      DropOne(pieces, m - 1, props, bound);
    }
  }

  /** The pieces from the n-th on are dropped, or one of them fails. */
  lemma DropOrFail(pieces: seq<string>, n: nat, props: seq<Prop>, bound: nat)
    requires (forall piece | piece in pieces :: |piece| <= bound) && n <= |pieces|
    requires ParseProps(pieces[..n], bound) == Ok(props) && forall i | n <= i < |pieces| :: ColonFails(pieces[i])
    ensures if ColonFree(pieces, n) then ParseProps(pieces, bound) == Ok(props) else ParseProps(pieces, bound).Err?
  {
    if ColonFree(pieces, n) {
      DropAll(pieces, n, |pieces|, props, bound);
      assert pieces[..|pieces|] == pieces;
    } else {
      var k :| n <= k < |pieces| && ':' in pieces[k];
      assert ColonFails(pieces[k]);
      PropsFail(pieces, pieces[k], bound);
    }
  }

  /** From the properties to the array. */
  lemma ArrayComesOut(props: seq<Prop>, inner: Option<seq<Modifier>>, mods: Option<seq<Modifier>>, q: string, good: bool)
    requires PrintableProps(props, true) && PrintableTail(inner, true) && PrintableTail(mods, false)
    requires ObjectContent(Print(Nested(props, inner))) == Some(q)
    requires if good then ParseProps(Split(q), |q|) == Ok(props) else ParseProps(Split(q), |q|).Err?
    ensures var r := ParseZodType(Print(SimpleArray(Nested(props, inner), mods)));
            if good then r == Ok(ArrayOfObjects(props, mods)) else r.Err?
  {
    var t := Print(Nested(props, inner));
    var part := "z.array" + (['('] + t + [')']);
    ModifiedObjectTrimmed(props, inner);
    ModifiedObjectZed(props, inner);
    ContentOfArray(t);
    PrintedNested(props, inner);
    ObjectStarts(Flat(Join(PropDocs(props))), Flat(TailDoc(inner)));
    if good {
      PropsValidate(props);
      UnfoldArrayOfObjects(part, t, q, props);
      GoodArray(Nested(props, inner), props, mods);
    } else {
      UnfoldFailingObjects(part, t, q);
      FailingArray(Nested(props, inner), mods);
    }
  }

  lemma ColonTrimmed(s: string)
    ensures ':' in Trim(s) <==> ':' in s
  {
    TrimHasNoMore(s);
    if k :| 0 <= k < |s| && s[k] == ':' {
      assert s == (s[..k] + [':']) + s[k + 1..];
      var a, b := TrimAround(s[..k], ':', s[k + 1..]);
      assert ((a + [':']) + b)[|a|] == ':';
    }
  }

  /** No colon gets lost in a split. */
  lemma {:induction false} ColonsInPieces(s: string, cur: string, depth: int, mode: Mode)
    ensures ColonFree(Scan(s, cur, depth, mode), 0) <==> ':' !in cur && ':' !in s
    decreases |s|
  {
    ColonTrimmed(cur);
    if s == "" {
    } else {
      assert s == [s[0]] + s[1..];
      if mode.Out? && s[0] == ',' && depth == 0 {
        ColonsInPieces(s[1..], "", 0, Out);
        ColonFreeNext(Trim(cur), Scan(s[1..], "", 0, Out));
      } else {
        ColonsInPieces(s[1..], cur + [s[0]], NextDepth(depth, mode, s[0]), NextMode(mode, s[0]));
      }
    }
  }

  lemma ColonFreeNext(piece: string, tail: seq<string>)
    ensures ColonFree([piece] + tail, 0) <==> ':' !in piece && ColonFree(tail, 0)
  {
    var all := [piece] + tail;
    assert all[0] == piece && all[1..] == tail;
    if ColonFree(all, 0) {
      forall i | 0 <= i < |tail| ensures ':' !in tail[i] { assert all[i + 1] == tail[i]; }
    }
  }

  /** An object without properties: the modifiers are dropped, unless the captured part of them has a colon. */
  lemma EmptyObject(inner: Option<seq<Modifier>>, mods: Option<seq<Modifier>>)
    requires PrintableTail(inner, true) && !NoBrace(inner) && PrintableTail(mods, false)
    ensures var content, r := ObjectContent(Print(Nested([], inner))), ParseZodType(Print(SimpleArray(Nested([], inner), mods)));
            content.Some? && if ':' !in content.value then r == Ok(ArrayOfObjects([], mods)) else r.Err?
  {
    var front, name, fs := CapturedWithBrace([], inner);
    var x := Swallowed(front, name, fs);
    var q := "})" + x;
    assert Flat(Join(PropDocs([]))) + ("})" + x) == q;
    ScanClose(x, "");
    assert "" + "})" == "})";
    SwallowedFine(front, name, fs, At("})", true, -2));
    var pieces := Split(q);
    assert pieces[..0] == [];
    DropOrFail(pieces, 0, [], |q|);
    ColonsInPieces(q, "", 0, Out);
    ArrayComesOut([], inner, mods, q, ColonFree(pieces, 0));
  }

  /** For instance z.array(z.object({}).default({})), although its modifiers hold a brace. */
  lemma EmptyLiteralDropped(name: string, mods: Option<seq<Modifier>>)
    requires AllWord(name) && name in ALLOWED_TYPES && PrintableTail(mods, false)
    ensures var inner := Some([Modifier(name, [Literal([])])]);
            !NoBrace(inner) && ParseZodType(Print(SimpleArray(Nested([], inner), mods))) == Ok(ArrayOfObjects([], mods))
  {
    var inner := [Modifier(name, [Literal([])])];
    EmptyLiteralPrintable(name);
    LiteralHasBrace(name, [], []);
    assert inner + [] == inner;
    EmptyLiteralContent(name);
    KeyHasNoColon(name);
    EmptyObject(Some(inner), mods);
  }

  lemma EmptyLiteralPrintable(name: string)
    requires AllWord(name) && name in ALLOWED_TYPES
    ensures PrintableMods([Modifier(name, [Literal([])])], true, true)
  {
    assert PrintableFields([]);
    assert PrintableArgs([Literal([])], true);
  }

  lemma EmptyLiteralContent(name: string)
    ensures ObjectContent(Print(Nested([], Some([Modifier(name, [Literal([])])])))) == Some("})" + (['.'] + (name + "({")))
  {
    var inner := [Modifier(name, [Literal([])])];
    var x := Swallowed([], name, []);
    PrintedNested([], Some(inner));
    SwallowedOf(inner, 0, []);
    assert inner[..0] == [] && inner[1..] == [];
    assert x == ['.'] + (name + "({");
    ContentBeyond("", x, "");
    assert "" + ("})" + x) == "})" + x;
    assert Flat(Join(PropDocs([]))) == "";
  }

  // ---------- properties that end in an object with modifiers ----------

  lemma {:induction false} ObjectModifiersBefore(mods: seq<Modifier>, rest: string)
    requires PrintableMods(mods, true, true) && rest != "" && rest[0] == '}'
    ensures ObjectModifiers(SkipDot(Flat(ModsDoc(mods)) + rest)) == Ok(mods)
    decreases |mods|
  {
    if mods == [] {
      assert Flat(ModsDoc(mods)) + rest == rest;
      assert WordLength(rest) == 0;
    } else {
      var c, m := CallText(mods[0].name, mods[0].args), Flat(ModsDoc(mods[1..]));
      ObjectModifiersBefore(mods[1..], rest);
      ModsTextOf(mods);
      SkipDotBefore(c, m, rest);
      ObjectModifiersStep(mods[0].name, mods[0].args, m + rest, mods[1..]);
      FirstModifier(mods);
    }
  }

  lemma SkipDotBefore(c: string, m: string, rest: string)
    ensures SkipDot((['.'] + (c + m)) + rest) == c + (m + rest)
  {
    assert (['.'] + (c + m)) + rest == ['.'] + (c + (m + rest));
    assert (['.'] + (c + (m + rest)))[1..] == c + (m + rest);
  }

  lemma ModsFirst(own: seq<Modifier>, rest: string)
    requires own != []
    ensures var m := Flat(ModsDoc(own)) + rest; m != "" && m[0] == '.' && SkipDot(m) == m[1..]
  {
    ModsEnds(own);
  }

  lemma GroupEnd(d: Doc, m: string)
    requires WellNested(d)
    ensures var g := ObjectGroup(Flat(d)); g[0] == '(' && ObjectEndAt(g + m, 0, 0, false, 8) == Some(8 + |g|)
  {
    ObjectEndOfGroup(d, m);
  }

  lemma ExtractBefore(d: Doc, own: seq<Modifier>, rest: string)
    requires WellNested(d) && own != [] && PrintableMods(own, true, true) && rest != "" && rest[0] == '}'
    ensures var s := "z.object" + (ObjectGroup(Flat(d)) + (Flat(ModsDoc(own)) + rest));
            Z_OBJECT <= s && ExtractObject(s) == Ok(Extract("z.object" + ObjectGroup(Flat(d)), Some(own)))
  {
    var m := Flat(ModsDoc(own)) + rest;
    ModsFirst(own, rest);
    ObjectModifiersBefore(own, rest);
    GroupEnd(d, m);
    ExtractObjectParts(ObjectGroup(Flat(d)), m, Some(own));
  }

  /** An object with modifiers is read as it is, and the text behind it ignored, if this begins with a closing brace. */
  lemma ObjectIgnoresRest(props: seq<Prop>, own: seq<Modifier>, rest: string)
    requires PrintableProps(props, true) && own != [] && PrintableMods(own, true, true) && rest != "" && rest[0] == '}'
    ensures ParseZodType(Print(Nested(props, Some(own))) + rest) == Ok(Nested(props, Some(own)))
  {
    var d, m := Join(PropDocs(props)), Flat(ModsDoc(own));
    ObjectZed(props, true);
    JoinWellNested(PropDocs(props));
    PropsRoundTrip(props, true);
    NestedBefore(props, own, rest);
    ExtractBefore(d, own, rest);
    ContentOfObject(Flat(d));
    UnfoldObject("z.object" + (ObjectGroup(Flat(d)) + (m + rest)), "z.object" + ObjectGroup(Flat(d)), Flat(d), props, Some(own));
  }

  lemma NestedBefore(props: seq<Prop>, own: seq<Modifier>, rest: string)
    ensures Print(Nested(props, Some(own))) + rest
            == "z.object" + (ObjectGroup(Flat(Join(PropDocs(props)))) + (Flat(ModsDoc(own)) + rest))
  {
    PrintedNested(props, Some(own));
    RestBehind(ObjectGroup(Flat(Join(PropDocs(props)))), Flat(ModsDoc(own)), rest);
  }

  lemma RestBehind(g: string, m: string, rest: string)
    ensures ("z.object" + (g + m)) + rest == "z.object" + (g + (m + rest))
  {
  }

  lemma UnfoldObject(s: string, part: string, p: string, props: seq<Prop>, mods: Option<seq<Modifier>>)
    requires Z_OBJECT <= s && ExtractObject(s) == Ok(Extract(part, mods)) && ObjectContent(part) == Some(p)
    requires ParseProps(Split(p), |p|) == Ok(props)
    ensures ParseZodType(s) == Ok(Nested(props, mods))
  {
  }

  /** The first piece of a scan continues what has been collected. */
  lemma {:induction false} FirstPiece(s: string, cur: string, depth: int, mode: Mode) returns (w: string)
    requires HasText(cur)
    ensures Scan(s, cur, depth, mode) != [] && Scan(s, cur, depth, mode)[0] == Trim(cur + w)
    decreases |s|
  {
    if s == "" {
      w := "";
      NotBlank(cur);
      assert cur + "" == cur;
    } else if mode.Out? && s[0] == ',' && depth == 0 {
      w := "";
      assert cur + "" == cur;
    } else {
      var i :| 0 <= i < |cur| && !IsSpace(cur[i]);
      assert (cur + [s[0]])[i] == cur[i];
      var v := FirstPiece(s[1..], cur + [s[0]], NextDepth(depth, mode, s[0]), NextMode(mode, s[0]));
      w := [s[0]] + v;
      assert (cur + [s[0]]) + v == cur + w;
    }
  }

  /** Text with some character that is no space. */
  predicate HasText(s: string) {
    exists i :: 0 <= i < |s| && !IsSpace(s[i])
  }

  lemma NotBlank(s: string)
    requires HasText(s)
    ensures Trim(s) != ""
  {
    var i :| 0 <= i < |s| && !IsSpace(s[i]);
    assert s == (s[..i] + [s[i]]) + s[i + 1..];
    var a, b := TrimAround(s[..i], s[i], s[i + 1..]);
  }

  /** Scanning joined pieces arrives at the last one with the others split off. */
  lemma {:induction false} ScanJoinLast(ds: seq<Doc>, cur: string, rest: string) returns (c: string)
    requires ds != [] && Pieces(ds) && (cur == "" || cur == " ")
    ensures (c == "" || c == " ") && |Flats(ds)| == |ds|
    ensures Scan(Flat(Join(ds)) + rest, cur, 0, Out) == Flats(ds)[..|ds| - 1] + Scan(rest, c + Flat(ds[|ds| - 1]), 0, Out)
    decreases |ds|
  {
    if |ds| == 1 {
      c := cur;
      ScanDoc(ds[0], rest, cur, 0);
      assert Flats(ds[1..]) == [];
      assert Flats(ds)[..0] == [];
      assert [] + Scan(rest, cur + Flat(ds[0]), 0, Out) == Scan(rest, cur + Flat(ds[0]), 0, Out);
    } else {
      var t, r := Flat(ds[0]), Flat(Join(ds[1..]));
      c := ScanJoinLast(ds[1..], " ", rest);
      assert Flat(Cat(Chars(", "), Join(ds[1..]))) == ", " + r;
      assert (t + (", " + r)) + rest == t + (", " + (r + rest));
      ScanDoc(ds[0], ", " + (r + rest), cur, 0);
      ScanComma(t, cur, r + rest);
      FlatsNext(ds, Scan(rest, c + Flat(ds[|ds| - 1]), 0, Out));
    }
  }

  lemma FlatsNext(ds: seq<Doc>, tail: seq<string>)
    requires |ds| > 1 && |Flats(ds[1..])| == |ds| - 1
    ensures |Flats(ds)| == |ds|
    ensures [Flat(ds[0])] + (Flats(ds[1..])[..|ds| - 2] + tail) == Flats(ds)[..|ds| - 1] + tail
  {
    HeadFront(Flat(ds[0]), Flats(ds[1..]), |ds| - 2, tail);
  }

  lemma HeadFront(a: string, s: seq<string>, n: nat, tail: seq<string>)
    requires n <= |s|
    ensures [a] + (s[..n] + tail) == ([a] + s)[..n + 1] + tail
  {
  }

  lemma TrimFront(c: string, s: string)
    requires (c == "" || c == " ") && s != "" && !IsSpace(s[0])
    ensures Trim(c + s) == TrimEnd(s)
  {
    assert (" " + s)[1..] == s;
    assert "" + s == s;
    assert TrimStart(s) == s;
  }

  lemma {:induction false} EndIsTrimmed(s: string)
    ensures var t := TrimEnd(s); t != "" ==> !IsSpace(t[|t| - 1])
  {
    if s != "" && IsSpace(s[|s| - 1]) {
      EndIsTrimmed(s[..|s| - 1]);
    }
  }

  lemma PieceText(c: string, k: string, v: string, w: string)
    ensures ((c + (k + v)) + "})") + w == c + (((k + (v + "}")) + [')']) + w)
    ensures ((k + (v + "}")) + [')']) + w == k + (v + ("})" + w))
  {
  }

  /** The trimmed piece of the last property. */
  lemma TrimPieceText(c: string, key: string, v: string, w: string) returns (w': string)
    requires (c == "" || c == " ") && AllWord(key) && v != "" && !IsSpace(v[0])
    ensures Trim(((c + ((key + ": ") + v)) + "})") + w) == (key + ": ") + (v + ("})" + w'))
    ensures Trimmed(v + ("})" + w'))
  {
    var k := key + ": ";
    var s := ((k + (v + "}")) + [')']) + w;
    WordsArePlain(key);
    PieceText(c, k, v, w);
    assert s[0] == key[0];
    TrimFront(c, s);
    w' := TrimEndKeeps(k + (v + "}"), ')', w);
    PieceText(c, k, v, w');
    EndIsTrimmed(s);
    var t := v + ("})" + w');
    assert (k + t)[|k + t| - 1] == t[|t| - 1];
  }

  /** The piece of the last property is read as the property, whatever was captured behind it. */
  lemma LastObjectParses(p: Prop, c: string, w: string)
    requires AllWord(p.key) && Printable(p.schema, true) && p.schema.Nested? && p.schema.mods.Some?
    requires c == "" || c == " "
    ensures PieceParses(Trim(((c + ((p.key + ": ") + Print(p.schema))) + "})") + w), p)
  {
    SchemaZed(p.schema, true);
    var w' := TrimPieceText(c, p.key, Print(p.schema), w);
    KeyAndValue(p.key, Print(p.schema) + ("})" + w'));
    ObjectIgnoresRest(p.schema.props, p.schema.mods.value, "})" + w');
    assert Nested(p.schema.props, Some(p.schema.mods.value)) == p.schema;
  }

  /** The captured text is cut into the properties but the last, and the pieces of the rest. */
  lemma SplitCaptured(props: seq<Prop>, x: string) returns (c: string)
    requires PrintableProps(props, true) && props != []
    ensures (c == "" || c == " ") && |Flats(PropDocs(props))| == |props|
    ensures var n, p := |props| - 1, props[|props| - 1];
            Split(Flat(Join(PropDocs(props))) + ("})" + x))
            == Flats(PropDocs(props))[..n] + Scan(x, (c + ((p.key + ": ") + Print(p.schema))) + "})", -2, Out)
  {
    var p := props[|props| - 1];
    LastPropText(props);
    LastPropDoc(props);
    c := ScanJoinLast(PropDocs(props), "", "})" + x);
    ScanClose(x, c + ((p.key + ": ") + Print(p.schema)));
  }

  lemma FrontParses(props: seq<Prop>, i: nat)
    requires PrintableProps(props, true) && i < |props|
    ensures |Flats(PropDocs(props))| == |props| && PieceParses(Flats(PropDocs(props))[i], props[i])
  {
    PropsAt(props, true);
    SchemaRoundTrip(props[i].schema, true);
    PrintedPieceParses(props[i], true);
  }

  /** The first piece of the rest is that of the last property, and those behind it fail if they have a colon. */
  lemma RestPieces(p: Prop, c: string, front: seq<Modifier>, name: string, fs: seq<Field>)
    requires AllWord(p.key) && Printable(p.schema, true) && p.schema.Nested? && p.schema.mods.Some?
    requires c == "" || c == " "
    requires PrintableMods(front, true, true) && AllWord(name) && PrintableFields(fs)
    ensures var tail := Scan(Swallowed(front, name, fs), (c + ((p.key + ": ") + Print(p.schema))) + "})", -2, Out);
            tail != [] && PieceParses(tail[0], p) && ColonsFail(tail, false)
  {
    var cur := (c + ((p.key + ": ") + Print(p.schema))) + "})";
    SwallowedFine(front, name, fs, At(cur, false, -2));
    assert cur[|cur| - 1] == ')';
    var w := FirstPiece(Swallowed(front, name, fs), cur, -2, Out);
    LastObjectParses(p, c, w);
  }

  lemma JoinedAt(flats: seq<string>, tail: seq<string>, n: nat, i: nat)
    requires n <= |flats| && i < n + |tail|
    ensures (flats[..n] + tail)[i] == if i < n then flats[i] else tail[i - n]
  {
  }

  lemma JoinedParses(flats: seq<string>, tail: seq<string>, n: nat, i: nat, p: Prop)
    requires n < |flats| && i <= n && tail != [] && PieceParses(if i < n then flats[i] else tail[0], p)
    ensures PieceParses((flats[..n] + tail)[i], p)
  {
    JoinedAt(flats, tail, n, i);
  }

  /** The pieces of the captured text: those of all properties, and those of the modifiers. */
  lemma CapturedPieces(props: seq<Prop>, front: seq<Modifier>, name: string, fs: seq<Field>)
    requires PrintableProps(props, true) && props != []
    requires props[|props| - 1].schema.Nested? && props[|props| - 1].schema.mods.Some?
    requires PrintableMods(front, true, true) && AllWord(name) && PrintableFields(fs)
    ensures var pieces := Split(Flat(Join(PropDocs(props))) + ("})" + Swallowed(front, name, fs)));
            && |pieces| >= |props|
            && (forall i | 0 <= i < |props| :: PieceParses(pieces[i], props[i]))
            && (forall i | |props| <= i < |pieces| :: ColonFails(pieces[i]))
  {
    var x, p := Swallowed(front, name, fs), props[|props| - 1];
    var c := SplitCaptured(props, x);
    LastPropText(props);
    RestPieces(p, c, front, name, fs);
    var tail := Scan(x, (c + ((p.key + ": ") + Print(p.schema))) + "})", -2, Out);
    var pieces := Flats(PropDocs(props))[..|props| - 1] + tail;
    forall i | 0 <= i < |props| ensures PieceParses(pieces[i], props[i]) {
      FrontParses(props, i);
      JoinedParses(Flats(PropDocs(props)), tail, |props| - 1, i, props[i]);
    }
    forall i | |props| <= i < |pieces| ensures ColonFails(pieces[i]) {
      JoinedAt(Flats(PropDocs(props)), tail, |props| - 1, i);
    }
  }

  /** Properties that end in an object with modifiers: they come out whole, unless a captured piece of the inner modifiers has a colon. */
  lemma EndsInObject(props: seq<Prop>, inner: Option<seq<Modifier>>, mods: Option<seq<Modifier>>)
    requires PrintableProps(props, true) && props != []
    requires props[|props| - 1].schema.Nested? && props[|props| - 1].schema.mods.Some?
    requires PrintableTail(inner, true) && !NoBrace(inner) && PrintableTail(mods, false)
    ensures var content, r := ObjectContent(Print(Nested(props, inner))), ParseZodType(Print(SimpleArray(Nested(props, inner), mods)));
            && content.Some? && |Split(content.value)| >= |props|
            && if ColonFree(Split(content.value), |props|) then r == Ok(ArrayOfObjects(props, mods)) else r.Err?
  {
    var front, name, fs := CapturedWithBrace(props, inner);
    var q := Flat(Join(PropDocs(props))) + ("})" + Swallowed(front, name, fs));
    CapturedPieces(props, front, name, fs);
    PropsAt(props, true);
    PropsOfPieces(Split(q), props, |q|);
    ArrayComesOut(props, inner, mods, q, ColonFree(Split(q), |props|));
  }

  lemma PropsOfPieces(pieces: seq<string>, props: seq<Prop>, bound: nat)
    requires (forall piece | piece in pieces :: |piece| <= bound) && |pieces| >= |props|
    requires forall i | 0 <= i < |props| :: PieceParses(pieces[i], props[i])
    requires forall i, j | 0 <= i < j < |props| :: props[i].key != props[j].key
    requires forall i | |props| <= i < |pieces| :: ColonFails(pieces[i])
    ensures if ColonFree(pieces, |props|) then ParseProps(pieces, bound) == Ok(props) else ParseProps(pieces, bound).Err?
  {
    var good := pieces[..|props|];
    forall i | 0 <= i < |props| ensures PieceParses(good[i], props[i]) { assert good[i] == pieces[i]; }
    PiecesRoundTrip(good, props, bound);
    DropOrFail(pieces, |props|, props, bound);
  }

  // ---------- properties that end in an object without modifiers ----------

  lemma ExtractNothing(g: string, m: string)
    requires g != "" && g[0] == '(' && m != "" && m[0] != '.' && ObjectEndAt(g + m, 0, 0, false, 8) == Some(8 + |g|)
    ensures var s := "z.object" + (g + m); Z_OBJECT <= s && ExtractObject(s) == Ok(Extract(s, None))
  {
    CutTail("z.object", g, m);
  }

  lemma BraceCaptured(d: Doc, rest: string)
    requires WellNested(d) && '}' !in rest
    ensures var p := Flat(d);
            var s := "z.object" + (ObjectGroup(p) + ("})" + rest));
            Z_OBJECT <= s && ExtractObject(s) == Ok(Extract(s, None)) && ObjectContent(s) == Some(p + "})")
  {
    var p := Flat(d);
    GroupEnd(d, "})" + rest);
    ExtractNothing(ObjectGroup(p), "})" + rest);
    ContentBeyond(p, "", rest);
    assert "" + ("})" + rest) == "})" + rest && "})" + "" == "})";
  }

  /** Such an object takes in the brace and parenthesis behind it: its own properties are read with these at their end. */
  lemma ObjectTakesBrace(props: seq<Prop>, strict: bool, rest: string)
    requires PrintableProps(props, strict) && '}' !in rest
    ensures var q := Flat(Join(PropDocs(props))) + "})";
            var r := ParseProps(Split(q), |q|);
            ParseZodType(Print(Nested(props, None)) + ("})" + rest)) == if r.Err? then Err(r.error) else Ok(Nested(r.value, None))
  {
    var d := Join(PropDocs(props));
    ObjectZed(props, strict);
    JoinWellNested(PropDocs(props));
    PrintedNested(props, None);
    NoTail(Flat(d), rest);
    BraceCaptured(d, rest);
    UnfoldAnyObject("z.object" + (ObjectGroup(Flat(d)) + ("})" + rest)), Flat(d) + "})");
  }

  lemma NoTail(p: string, rest: string)
    ensures ("z.object" + (ObjectGroup(p) + "")) + ("})" + rest) == "z.object" + (ObjectGroup(p) + ("})" + rest))
  {
  }

  lemma UnfoldAnyObject(s: string, q: string)
    requires Z_OBJECT <= s && ExtractObject(s) == Ok(Extract(s, None)) && ObjectContent(s) == Some(q)
    ensures var r := ParseProps(Split(q), |q|); ParseZodType(s) == if r.Err? then Err(r.error) else Ok(Nested(r.value, None))
  {
  }
}
