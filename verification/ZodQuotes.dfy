/**
  Schema texts as people write them, character by character: keys and list items in single
  or double quotes or without, blanks and line ends between the parts, a comma behind the
  last property. The printer of this project writes one form only; here are the others.
 */
module ZodQuotes {
  import opened Common
  import opened ZodText
  import opened ZodParser
  import opened ZodPrinter
  import opened ZodRoundTrip

  // ---------- blanks and quotes ----------

  predicate Blank(w: string) {
    forall i | 0 <= i < |w| :: w[i] == ' ' || w[i] == '\t' || w[i] == '\n' || w[i] == '\r'
  }

  /** A text that begins and ends in a visible character. */
  predicate VisibleEnds(t: string) {
    t != "" && '!' <= t[0] <= '~' && '!' <= t[|t| - 1] <= '~'
  }

  lemma {:induction false} BlanksBefore(w: string, t: string)
    requires Blank(w)
    ensures TrimStart(w + t) == TrimStart(t)
  {
    if w == "" {
      assert w + t == t;
    } else {
      BlanksBefore(w[1..], t);
      assert (w + t)[1..] == w[1..] + t;
    }
  }

  lemma {:induction false} BlanksBehind(t: string, w: string)
    requires Blank(w)
    ensures TrimEnd(t + w) == TrimEnd(t)
  {
    if w == "" {
      assert t + w == t;
    } else {
      BlanksBehind(t, w[..|w| - 1]);
      assert (t + w)[..|t + w| - 1] == t + w[..|w| - 1];
    }
  }

  lemma TrimBlank(w: string)
    requires Blank(w)
    ensures Trim(w) == ""
  {
    BlanksBefore(w, "");
    assert w + "" == w;
  }

  lemma TrimVisible(t: string)
    requires VisibleEnds(t)
    ensures Trim(t) == t
  {
  }

  /** Trimming takes exactly the blanks away. */
  lemma TrimBlanks(before: string, t: string, after: string)
    requires Blank(before) && Blank(after) && VisibleEnds(t)
    ensures Trim(before + t + after) == t
  {
    assert before + t + after == before + (t + after);
    BlanksBefore(before, t + after);
    assert TrimStart(t + after) == t + after by { assert (t + after)[0] == t[0]; }
    BlanksBehind(t, after);
  }

  predicate Quote(c: char) {
    c == '\'' || c == '"'
  }

  /** A text that a string in these quotes can hold: none of the quotes in it without a backslash, and no backslash at its end. */
  predicate Held(quote: char, s: string) {
    && (forall i | 0 <= i < |s| && s[i] == quote :: i > 0 && s[i - 1] == '\\')
    && (s != "" ==> s[|s| - 1] != '\\')
  }

  predicate QuoteFree(s: string) {
    '\'' !in s && '"' !in s
  }

  function InQuotesText(quote: char, s: string): string {
    [quote] + s + [quote]
  }

  // ---------- splitting at the commas ----------

  datatype Text = Bare(s: string) | InQuotes(quote: char, s: string) | InBrackets(open: char, inner: Text, close: char) | Both(a: Text, b: Text)

  function Written(t: Text): string {
    match t
    case Bare(s) => s
    case InQuotes(quote, s) => InQuotesText(quote, s)
    case InBrackets(open, inner, close) => [open] + Written(inner) + [close]
    case Both(a, b) => Written(a) + Written(b)
  }

  predicate WellFormed(t: Text) {
    match t
    case Bare(s) => forall c | c in s :: c !in "'\"()[]{}"
    case InQuotes(quote, s) => Quote(quote) && Held(quote, s)
    case InBrackets(open, inner, close) => open in "([{" && close in ")]}" && WellFormed(inner)
    case Both(a, b) => WellFormed(a) && WellFormed(b)
  }

  /** No comma outside quotes and brackets. */
  predicate OnePiece(t: Text) {
    match t
    case Bare(s) => ',' !in s
    case InQuotes(_, _) => true
    case InBrackets(_, _, _) => true
    case Both(a, b) => OnePiece(a) && OnePiece(b)
  }

  /** The state of a scanner after `k` characters of a string. */
  function Within(quote: char, s: string, k: nat): Mode
    requires k <= |s|
  {
    In(quote, k > 0 && s[k - 1] == '\\')
  }

  lemma StaysWithin(quote: char, s: string, k: nat)
    requires Quote(quote) && Held(quote, s) && k < |s|
    ensures NextMode(Within(quote, s, k), s[k]) == Within(quote, s, k + 1)
  {
  }

  lemma CharNext(s: string, rest: string, cur: string, k: nat)
    requires k < |s|
    ensures s[k..] + rest == [s[k]] + (s[k + 1..] + rest)
    ensures (cur + s[..k]) + [s[k]] == cur + s[..k + 1]
  {
    assert s[k..] == [s[k]] + s[k + 1..];
    assert s[..k + 1] == s[..k] + [s[k]];
  }

  lemma {:induction false} ScanWithin(quote: char, s: string, rest: string, cur: string, depth: int, k: nat)
    requires Quote(quote) && Held(quote, s) && k <= |s|
    ensures Scan(s[k..] + rest, cur + s[..k], depth, Within(quote, s, k)) == Scan(rest, cur + s, depth, Within(quote, s, |s|))
    decreases |s| - k
  {
    if k == |s| {
      assert s[k..] + rest == rest && s[..k] == s;
    } else {
      CharNext(s, rest, cur, k);
      StaysWithin(quote, s, k);
      ScanOne(s[k], s[k + 1..] + rest, cur + s[..k], depth, Within(quote, s, k));
      ScanWithin(quote, s, rest, cur, depth, k + 1);
    }
  }

  /** A string in either kind of quotes stays in one piece, whatever commas and brackets it holds. */
  lemma ScanString(quote: char, s: string, rest: string, cur: string, depth: int)
    requires Quote(quote) && Held(quote, s)
    ensures Scan(InQuotesText(quote, s) + rest, cur, depth, Out) == Scan(rest, cur + InQuotesText(quote, s), depth, Out)
  {
    FlatGroup(quote, s, quote, rest, cur);
    ScanOne(quote, s + ([quote] + rest), cur, depth, Out);
    assert s[0..] == s && (cur + [quote]) + s[..0] == cur + [quote];
    ScanWithin(quote, s, [quote] + rest, cur + [quote], depth, 0);
    ScanOne(quote, rest, (cur + [quote]) + s, depth, Within(quote, s, |s|));
  }

  lemma {:induction false} ScanText(t: Text, rest: string, cur: string, depth: int)
    requires WellFormed(t) && depth >= 0 && (depth == 0 ==> OnePiece(t))
    ensures Scan(Written(t) + rest, cur, depth, Out) == Scan(rest, cur + Written(t), depth, Out)
    decreases t
  {
    match t
    case Bare(s) =>
      forall i | 0 <= i < |s| ensures Plain(s[i]) { assert s[i] in s; }
      ScanPlain(s, rest, cur, depth);
    case InQuotes(quote, s) => ScanString(quote, s, rest, cur, depth);
    case InBrackets(open, inner, close) =>
      FlatGroup(open, Written(inner), close, rest, cur);
      ScanOne(open, Written(inner) + ([close] + rest), cur, depth, Out);
      ScanText(inner, [close] + rest, cur + [open], depth + 1);
      ScanOne(close, rest, cur + [open] + Written(inner), depth + 1, Out);
    case Both(a, b) =>
      FlatCat(Written(a), Written(b), rest, cur);
      ScanText(a, Written(b) + rest, cur, depth);
      ScanText(b, rest, cur + Written(a), depth);
  }

  function Commas(ts: seq<string>): string {
    if ts == [] then "" else if |ts| == 1 then ts[0] else ts[0] + ("," + Commas(ts[1..]))
  }

  function WrittenAll(ts: seq<Text>): seq<string> {
    seq(|ts|, i requires 0 <= i < |ts| => Written(ts[i]))
  }

  function TrimAll(ts: seq<string>): seq<string> {
    seq(|ts|, i requires 0 <= i < |ts| => Trim(ts[i]))
  }

  /** The pieces of a text with commas: trimmed, in order, the last one only if it is not blank. */
  function PiecesOf(ts: seq<string>): seq<string>
    requires ts != []
  {
    var last := Trim(ts[|ts| - 1]);
    TrimAll(ts[..|ts| - 1]) + if last == "" then [] else [last]
  }

  lemma PiecesNext(ts: seq<string>)
    requires |ts| > 1
    ensures PiecesOf(ts) == [Trim(ts[0])] + PiecesOf(ts[1..])
  {
    assert ts[..|ts| - 1] == [ts[0]] + ts[1..][..|ts[1..]| - 1];
  }

  /** Splitting at commas: strings in either quotes and bracketed text stay whole. */
  lemma {:induction false} SplitTexts(ts: seq<Text>)
    requires ts != [] && forall i | 0 <= i < |ts| :: WellFormed(ts[i]) && OnePiece(ts[i])
    ensures Split(Commas(WrittenAll(ts))) == PiecesOf(WrittenAll(ts))
    decreases |ts|
  {
    var t := Written(ts[0]);
    if |ts| == 1 {
      assert t + "" == t && "" + t == t;
      ScanText(ts[0], "", "", 0);
    } else {
      assert WrittenAll(ts)[1..] == WrittenAll(ts[1..]);
      var rest := Commas(WrittenAll(ts[1..]));
      ScanText(ts[0], "," + rest, "", 0);
      assert "" + t == t;
      ScanCut(rest, t);
      SplitTexts(ts[1..]);
      PiecesNext(WrittenAll(ts));
    }
  }

  // ---------- lists of strings ----------

  /** One item of a list: in quotes, or bare. */
  datatype Item = Item(before: string, quote: Option<char>, s: string, after: string)

  function ItemText(x: Item): string {
    x.before + (if x.quote.Some? then InQuotesText(x.quote.value, x.s) else x.s) + x.after
  }

  predicate ItemFine(x: Item) {
    && Blank(x.before) && Blank(x.after)
    && if x.quote.Some? then Quote(x.quote.value) && Held(x.quote.value, x.s)
       else VisibleEnds(x.s) && QuoteFree(x.s) && ',' !in x.s
  }

  lemma {:induction false} ItemWithin(quote: char, s: string, rest: string, cur: string, k: nat)
    requires Quote(quote) && Held(quote, s) && k <= |s|
    ensures ScanItems(s[k..] + rest, cur + s[..k], Within(quote, s, k)) == ScanItems(rest, cur + s, Within(quote, s, |s|))
    decreases |s| - k
  {
    if k == |s| {
      assert s[k..] + rest == rest && s[..k] == s;
    } else {
      CharNext(s, rest, cur, k);
      StaysWithin(quote, s, k);
      ItemOne(s[k], s[k + 1..] + rest, cur + s[..k], Within(quote, s, k));
      ItemWithin(quote, s, rest, cur, k + 1);
    }
  }

  lemma ItemString(quote: char, s: string, rest: string, cur: string)
    requires Quote(quote) && Held(quote, s)
    ensures ScanItems(InQuotesText(quote, s) + rest, cur, Out) == ScanItems(rest, cur + InQuotesText(quote, s), Out)
  {
    FlatGroup(quote, s, quote, rest, cur);
    ItemOne(quote, s + ([quote] + rest), cur, Out);
    assert s[0..] == s && (cur + [quote]) + s[..0] == cur + [quote];
    ItemWithin(quote, s, [quote] + rest, cur + [quote], 0);
    ItemOne(quote, rest, (cur + [quote]) + s, Within(quote, s, |s|));
  }

  lemma {:induction false} ItemPlain(s: string, rest: string, cur: string)
    requires QuoteFree(s) && ',' !in s
    ensures ScanItems(s + rest, cur, Out) == ScanItems(rest, cur + s, Out)
    decreases |s|
  {
    if s == "" {
      assert s + rest == rest && cur + s == cur;
    } else {
      assert s[0] in s;
      ConcatHead(s[0], s[1..], rest, cur);
      assert s == [s[0]] + s[1..];
      ItemOne(s[0], s[1..] + rest, cur, Out);
      ItemPlain(s[1..], rest, cur + [s[0]]);
    }
  }

  lemma BlankIsPlain(w: string)
    requires Blank(w)
    ensures QuoteFree(w) && ',' !in w
  {
  }

  lemma Regrouped(a: string, t: string, b: string, rest: string)
    ensures (a + t + b) + rest == a + (t + (b + rest)) && "" + a == a
  {
  }

  lemma ItemWhole(x: Item, rest: string)
    requires ItemFine(x)
    ensures ScanItems(ItemText(x) + rest, "", Out) == ScanItems(rest, ItemText(x), Out)
  {
    var t := if x.quote.Some? then InQuotesText(x.quote.value, x.s) else x.s;
    BlankIsPlain(x.before);
    BlankIsPlain(x.after);
    Regrouped(x.before, t, x.after, rest);
    ItemPlain(x.before, t + (x.after + rest), "");
    if x.quote.Some? {
      ItemString(x.quote.value, x.s, x.after + rest, x.before);
    } else {
      ItemPlain(x.s, x.after + rest, x.before);
    }
    ItemPlain(x.after, rest, x.before + t);
  }

  /** The quotes of an item go, and nothing else. */
  lemma ItemBare(x: Item)
    requires ItemFine(x)
    ensures Trim(ItemText(x)) != "" && StripQuotes(Trim(ItemText(x))) == x.s
  {
    if x.quote.Some? {
      TrimBlanks(x.before, InQuotesText(x.quote.value, x.s), x.after);
      var q := InQuotesText(x.quote.value, x.s);
      assert q[1..][..|x.s|] == x.s;
    } else {
      TrimBlanks(x.before, x.s, x.after);
      assert x.s[0] in x.s && x.s[|x.s| - 1] in x.s;
    }
  }

  function ItemTexts(xs: seq<Item>): seq<string> {
    seq(|xs|, i requires 0 <= i < |xs| => ItemText(xs[i]))
  }

  function Strings(xs: seq<Item>): (ss: seq<string>)
    ensures |ss| == |xs| && forall i | 0 <= i < |xs| :: ss[i] == xs[i].s
  {
    seq(|xs|, i requires 0 <= i < |xs| => xs[i].s)
  }

  /** A list of items, each in single quotes, in double quotes or bare, is read back item by item, commas inside quotes included. */
  lemma {:induction false} ItemsReadBack(xs: seq<Item>)
    requires forall i | 0 <= i < |xs| :: ItemFine(xs[i])
    ensures ScanItems(Commas(ItemTexts(xs)), "", Out) == Strings(xs)
    decreases |xs|
  {
    if xs != [] {
      var t := ItemText(xs[0]);
      ItemBare(xs[0]);
      if |xs| == 1 {
        assert t + "" == t;
        ItemWhole(xs[0], "");
      } else {
        assert ItemTexts(xs)[1..] == ItemTexts(xs[1..]);
        var rest := Commas(ItemTexts(xs[1..]));
        ItemWhole(xs[0], "," + rest);
        assert ("," + rest)[1..] == rest;
        ItemsReadBack(xs[1..]);
        assert Strings(xs) == [xs[0].s] + Strings(xs[1..]);
      }
    }
  }

  // ---------- keys ----------

  /** A key as it is written: bare, or in one kind of quotes. */
  function KeyText(quote: Option<char>, key: string): string {
    if quote.Some? then InQuotesText(quote.value, key) else key
  }

  predicate KeyFine(quote: Option<char>, key: string) {
    && QuoteFree(key) && ':' !in key
    && if quote.Some? then Quote(quote.value) else VisibleEnds(key)
  }

  lemma {:induction false} RemoveQuotesConcat(a: string, b: string)
    ensures RemoveQuotes(a + b) == RemoveQuotes(a) + RemoveQuotes(b)
  {
    if a == "" {
      assert a + b == b;
    } else {
      assert (a + b)[1..] == a[1..] + b;
      RemoveQuotesConcat(a[1..], b);
    }
  }

  lemma {:induction false} RemoveNoQuotes(s: string)
    requires QuoteFree(s)
    ensures RemoveQuotes(s) == s
  {
    if s != "" {
      assert s[0] in s;
      RemoveNoQuotes(s[1..]);
      assert s == [s[0]] + s[1..];
    }
  }

  lemma RemoveOneQuote(c: char)
    requires Quote(c)
    ensures RemoveQuotes([c]) == ""
  {
    assert [c][1..] == "";
  }

  /** The bare key is what is left of each way to write it. */
  lemma KeyReadBack(before: string, quote: Option<char>, key: string, after: string)
    requires Blank(before) && Blank(after) && KeyFine(quote, key)
    ensures RemoveQuotes(Trim(before + KeyText(quote, key) + after)) == key
  {
    TrimBlanks(before, KeyText(quote, key), after);
    RemoveNoQuotes(key);
    if quote.Some? {
      RemoveOneQuote(quote.value);
      RemoveQuotesConcat([quote.value], key);
      RemoveQuotesConcat([quote.value] + key, [quote.value]);
    }
  }

  /** A property: key, colon and type, with blanks between them. */
  datatype Entry = Entry(before: string, quote: Option<char>, key: string, after: string, gap: string, value: Text, end: string)

  function Colon(e: Entry): string {
    KeyText(e.quote, e.key) + e.after + ":" + e.gap + Written(e.value)
  }

  function EntryText(e: Entry): string {
    e.before + Colon(e) + e.end
  }

  predicate EntryFine(e: Entry) {
    && Blank(e.before) && Blank(e.after) && Blank(e.gap) && Blank(e.end)
    && KeyFine(e.quote, e.key) && e.key != "" && (e.quote == None ==> forall c | c in e.key :: c !in ",()[]{}")
    && WellFormed(e.value) && OnePiece(e.value) && VisibleEnds(Written(e.value))
  }

  lemma ColonParts(e: Entry)
    requires EntryFine(e)
    ensures VisibleEnds(Colon(e)) && Trim(EntryText(e)) == Colon(e)
    ensures var k := KeyText(e.quote, e.key) + e.after;
            && IndexOf(Colon(e), ':') == Some(|k|)
            && Colon(e)[..|k|] == k && Colon(e)[|k| + 1..] == e.gap + Written(e.value)
  {
    var k := KeyText(e.quote, e.key) + e.after;
    var v := e.gap + Written(e.value);
    assert Colon(e) == k + [':'] + v;
    assert ':' !in k;
    IndexOfAfter(k, ':', v);
    assert Colon(e)[0] == k[0] == KeyText(e.quote, e.key)[0];
    assert Colon(e)[|Colon(e)| - 1] == Written(e.value)[|Written(e.value)| - 1];
    TrimBlanks(e.before, Colon(e), e.end);
  }

  lemma KeyAndType(e: Entry)
    requires EntryFine(e)
    ensures var k := KeyText(e.quote, e.key) + e.after;
            RemoveQuotes(Trim(k)) == e.key && Trim(e.gap + Written(e.value)) == Written(e.value)
  {
    KeyReadBack("", e.quote, e.key, e.after);
    assert "" + KeyText(e.quote, e.key) + e.after == KeyText(e.quote, e.key) + e.after;
    TrimBlanks(e.gap, Written(e.value), "");
    assert e.gap + Written(e.value) + "" == e.gap + Written(e.value);
  }

  /** A piece with its colon at `n` between key and type. */
  predicate Cuts(piece: string, n: nat, key: string, typeText: string) {
    n < |piece| && IndexOf(piece, ':') == Some(n) && RemoveQuotes(Trim(piece[..n])) == key && Trim(piece[n + 1..]) == typeText
  }

  lemma EntryCuts(e: Entry)
    requires EntryFine(e)
    ensures Cuts(Trim(EntryText(e)), |KeyText(e.quote, e.key) + e.after|, e.key, Written(e.value))
  {
    ColonParts(e);
    KeyAndType(e);
  }

  lemma UnfoldProperty(props: seq<Prop>, piece: string, n: nat, key: string, typeText: string)
    requires Cuts(piece, n, key, typeText)
    ensures var value := ParseZodType(typeText);
            AddProperty(props, piece) == if value.Err? then Err(value.error) else Ok(if key == "" then props else Put(props, Prop(key, value.value)))
    ensures key != "" && ParseZodType(typeText).Ok? ==> PieceParses(piece, Prop(key, ParseZodType(typeText).value))
  {
  }

  /** `parseProperty` gives a property the bare key, however it is written, and the type behind the colon. */
  lemma EntryReadBack(props: seq<Prop>, e: Entry)
    requires EntryFine(e)
    ensures var value := ParseZodType(Written(e.value));
            AddProperty(props, Trim(EntryText(e))) == if value.Err? then Err(value.error) else Ok(Put(props, Prop(e.key, value.value)))
  {
    EntryCuts(e);
    UnfoldProperty(props, Trim(EntryText(e)), |KeyText(e.quote, e.key) + e.after|, e.key, Written(e.value));
  }

  lemma EntryParses(e: Entry, p: Prop)
    requires EntryFine(e) && Gives(e, p)
    ensures PieceParses(Trim(EntryText(e)), p)
  {
    EntryCuts(e);
    UnfoldProperty([], Trim(EntryText(e)), |KeyText(e.quote, e.key) + e.after|, e.key, Written(e.value));
  }

  /** A piece without a colon is no property and no field. */
  lemma NothingStored(props: seq<Prop>, pieces: seq<string>, piece: string)
    requires ':' !in piece
    ensures AddProperty(props, piece) == Ok(props) && ParseFields(pieces + [piece]) == ParseFields(pieces)
  {
    assert IndexOf(piece, ':') == None;
    assert (pieces + [piece])[..|pieces + [piece]| - 1] == pieces;
  }

  /** A property stored under a known key takes its place; under a new one it comes last. */
  lemma {:induction false} PutMeans(props: seq<Prop>, p: Prop, i: nat)
    requires i <= |props| && (forall j | 0 <= j < i :: props[j].key != p.key) && (i < |props| ==> props[i].key == p.key)
    ensures Put(props, p) == if i < |props| then props[i := p] else props + [p]
  {
    if i > 0 {
      assert props == [props[0]] + props[1..];
      PutMeans(props[1..], p, i - 1);
    } else if props != [] {
      assert props[0 := p] == [p] + props[1..];
    }
  }

  lemma {:induction false} PutFieldMeans(fs: seq<Field>, f: Field, i: nat)
    requires i <= |fs| && (forall j | 0 <= j < i :: fs[j].key != f.key) && (i < |fs| ==> fs[i].key == f.key)
    ensures PutField(fs, f) == if i < |fs| then fs[i := f] else fs + [f]
  {
    if i > 0 {
      assert fs == [fs[0]] + fs[1..];
      PutFieldMeans(fs[1..], f, i - 1);
    } else if fs != [] {
      assert fs[0 := f] == [f] + fs[1..];
    }
  }

  // ---------- a whole schema ----------

  function EntryAsText(e: Entry): Text {
    Both(Bare(e.before),
         Both(if e.quote.Some? then InQuotes(e.quote.value, e.key) else Bare(e.key),
              Both(Bare(e.after + ":" + e.gap), Both(e.value, Bare(e.end)))))
  }

  lemma EntryIsText(e: Entry)
    requires Usable(e)
    ensures Written(EntryAsText(e)) == EntryText(e) && WellFormed(EntryAsText(e)) && OnePiece(EntryAsText(e))
  {
    var k, m := KeyText(e.quote, e.key), e.after + ":" + e.gap;
    BlankIsBare(e.before);
    BlankIsBare(e.after);
    BlankIsBare(e.gap);
    BlankIsBare(e.end);
    var key := if e.quote.Some? then InQuotes(e.quote.value, e.key) else Bare(e.key);
    assert Written(key) == k && WellFormed(key) && OnePiece(key);
    assert WellFormed(Bare(m)) && OnePiece(Bare(m));
    BothParts(e.value, Bare(e.end));
    BothParts(Bare(m), Both(e.value, Bare(e.end)));
    BothParts(key, Both(Bare(m), Both(e.value, Bare(e.end))));
    BothParts(Bare(e.before), Both(key, Both(Bare(m), Both(e.value, Bare(e.end)))));
    assert EntryText(e) == e.before + (k + (m + (Written(e.value) + e.end)));
  }

  lemma BothParts(a: Text, b: Text)
    ensures Written(Both(a, b)) == Written(a) + Written(b)
    ensures WellFormed(a) && WellFormed(b) ==> WellFormed(Both(a, b))
    ensures OnePiece(a) && OnePiece(b) ==> OnePiece(Both(a, b))
  {
  }

  lemma BlankIsBare(w: string)
    requires Blank(w)
    ensures WellFormed(Bare(w)) && OnePiece(Bare(w))
  {
  }

  /** The properties one after the other; `tail` is what stands behind a last comma, if there is one. */
  function EntriesText(es: seq<Entry>, tail: Option<string>): seq<Text> {
    seq(|es|, i requires 0 <= i < |es| => EntryAsText(es[i])) + if tail.Some? then [Bare(tail.value)] else []
  }

  predicate Usable(e: Entry) {
    EntryFine(e) && (e.quote.Some? ==> Held(e.quote.value, e.key))
  }

  predicate EntriesFine(es: seq<Entry>, tail: Option<string>) {
    && es != [] && (tail.Some? ==> Blank(tail.value))
    && (forall i | 0 <= i < |es| :: Usable(es[i]))
    && (forall i, j | 0 <= i < j < |es| :: es[i].key != es[j].key)
  }

  lemma SplitEntries(es: seq<Entry>, tail: Option<string>)
    requires EntriesFine(es, tail)
    ensures var pieces := Split(Commas(WrittenAll(EntriesText(es, tail))));
            |pieces| == |es| && forall i | 0 <= i < |es| :: pieces[i] == Trim(EntryText(es[i]))
  {
    var ts := EntriesText(es, tail);
    EntriesAreTexts(es, tail);
    SplitTexts(ts);
    if tail.Some? {
      TrimBlank(tail.value);
    }
    OnlyLastMayGo(WrittenAll(ts), |es|);
  }

  lemma EntriesAreTexts(es: seq<Entry>, tail: Option<string>)
    requires EntriesFine(es, tail)
    ensures var ts := EntriesText(es, tail);
            && (forall i | 0 <= i < |ts| :: WellFormed(ts[i]) && OnePiece(ts[i]))
            && (forall i | 0 <= i < |es| :: WrittenAll(ts)[i] == EntryText(es[i]) && Trim(EntryText(es[i])) != "")
            && (tail.Some? ==> WrittenAll(ts)[|es|] == tail.value)
  {
    var ts := EntriesText(es, tail);
    forall i | 0 <= i < |ts| ensures WellFormed(ts[i]) && OnePiece(ts[i]) {
      if i < |es| {
        assert ts[i] == EntryAsText(es[i]);
        EntryIsText(es[i]);
      } else {
        BlankIsBare(tail.value);
      }
    }
    forall i | 0 <= i < |es| ensures WrittenAll(ts)[i] == EntryText(es[i]) && Trim(EntryText(es[i])) != "" {
      assert ts[i] == EntryAsText(es[i]);
      EntryIsText(es[i]);
      ColonParts(es[i]);
    }
  }

  lemma OnlyLastMayGo(ts: seq<string>, n: nat)
    requires 0 < n <= |ts| <= n + 1
    requires (forall i | 0 <= i < n :: Trim(ts[i]) != "") && (|ts| > n ==> Trim(ts[n]) == "")
    ensures |PiecesOf(ts)| == n && forall i | 0 <= i < n :: PiecesOf(ts)[i] == Trim(ts[i])
  {
  }

  /** Every property has the key of its entry and what the text of its type parses to. */
  ghost predicate EntriesParse(es: seq<Entry>, props: seq<Prop>) {
    |props| == |es| && forall i | 0 <= i < |es| :: Gives(es[i], props[i])
  }

  ghost predicate Gives(e: Entry, p: Prop) {
    p.key == e.key && ParseZodType(Written(e.value)) == Ok(p.schema)
  }

  /** An object as it is written around its properties. */
  function ObjectText(a: string, content: string, b: string): string {
    "z.object(" + a + "{" + content + "}" + b + ")"
  }

  /**
    A schema with its keys in single quotes, double quotes or none, with blanks between all
    parts and with or without a last comma: parsed, it has the bare keys in their order, each
    with what its type parses to.
   */
  lemma SchemaReadBack(a: string, es: seq<Entry>, tail: Option<string>, b: string, props: seq<Prop>)
    requires Blank(a) && Blank(b) && EntriesFine(es, tail) && EntriesParse(es, props)
    ensures ParseSchema(ObjectText(a, Commas(WrittenAll(EntriesText(es, tail))), b)) == Ok(props)
  {
    var content := Commas(WrittenAll(EntriesText(es, tail)));
    var pieces := Split(content);
    ContentBetween(a, content, b);
    SplitEntries(es, tail);
    forall i | 0 <= i < |props| ensures PieceParses(pieces[i], props[i]) {
      EntryParses(es[i], props[i]);
    }
    PiecesRoundTrip(pieces, props, |content|);
  }

  /** The text between the braces is found whatever it holds, with blanks on both sides of them. */
  lemma ContentBetween(a: string, content: string, b: string)
    requires Blank(a) && Blank(b)
    ensures var s := ObjectText(a, content, b); Z_OBJECT <= s && ObjectContent(s) == Some(content)
  {
    var s := ObjectText(a, content, b);
    var rest := content + (("}" + b) + ")");
    assert s == "z.object(" + (a + ("{" + rest));
    assert s[9..] == a + ("{" + rest);
    SpacesOf(a, "{" + rest);
    assert s[9 + |a|..] == "{" + rest && s[10 + |a|..] == rest;
    LastCloseBlank(content, b);
    assert rest[..|content|] == content;
  }

  lemma {:induction false} SpacesOf(w: string, rest: string)
    requires Blank(w) && rest != "" && '!' <= rest[0] <= '~'
    ensures SpaceLength(w + rest) == |w|
  {
    if w == "" {
      assert w + rest == rest;
    } else {
      assert (w + rest)[1..] == w[1..] + rest;
      SpacesOf(w[1..], rest);
    }
  }

  lemma {:induction false} LastCloseBlank(p: string, w: string)
    requires Blank(w)
    ensures LastClose(p + (("}" + w) + ")")) == Some(|p|)
  {
    var m := ("}" + w) + ")";
    if p == "" {
      assert p + m == m && m[1..] == w + ")";
      SpacesOf(w, ")");
      NoClose(w + ")");
    } else {
      LastCloseBlank(p[1..], w);
      LastCloseNext(p[0], p[1..] + m, |p| - 1);
      assert p + m == [p[0]] + (p[1..] + m);
    }
  }

  // ---------- printed types under keys of any form ----------

  /** A printed text as one of these. */
  function AsText(d: Doc): Text {
    match d
    case Chars(s) => Bare(s)
    case Quoted(s) => InQuotes('"', s)
    case Group(open, inner, close) => InBrackets(open, AsText(inner), close)
    case Cat(a, b) => Both(AsText(a), AsText(b))
  }

  lemma {:induction false} PrintedIsText(d: Doc)
    requires WellNested(d)
    ensures Written(AsText(d)) == Flat(d) && WellFormed(AsText(d)) && (CommaFree(d) ==> OnePiece(AsText(d)))
  {
    match d
    case Chars(s) =>
    case Quoted(s) =>
      assert forall i | 0 <= i < |s| :: Inside(s[i]);
    case Group(_, inner, _) => PrintedIsText(inner);
    case Cat(a, b) =>
      PrintedIsText(a);
      PrintedIsText(b);
  }

  /** The properties under keys in the given quotes, one after the other. */
  function KeyedEntries(props: seq<Prop>, quotes: seq<Option<char>>): seq<Entry>
    requires |props| == |quotes|
  {
    seq(|props|, i requires 0 <= i < |props| => KeyedEntry(props[i], quotes[i]))
  }

  function KeyedEntry(p: Prop, quote: Option<char>): Entry {
    Entry("", quote, p.key, "", " ", AsText(SchemaDoc(p.schema)), "")
  }

  /**
    Whichever of the keys stand in single quotes, in double quotes or bare: the schema parses
    to its properties in their order.
   */
  lemma QuotedKeysRoundTrip(props: seq<Prop>, quotes: seq<Option<char>>)
    requires props != [] && (forall i | 0 <= i < |props| :: PrintableProp(props[i]))
    requires forall i, j | 0 <= i < j < |props| :: props[i].key != props[j].key
    requires |quotes| == |props| && forall i | 0 <= i < |quotes| :: quotes[i].Some? ==> Quote(quotes[i].value)
    ensures ParseSchema(ObjectText("", Commas(WrittenAll(EntriesText(KeyedEntries(props, quotes), None))), "")) == Ok(props)
  {
    var es := KeyedEntries(props, quotes);
    forall i | 0 <= i < |props| ensures Usable(es[i]) && Gives(es[i], props[i]) {
      KeyedEntryFine(props[i], quotes[i]);
    }
    KeyedSchema(es, props);
  }

  predicate PrintableProp(p: Prop) {
    AllWord(p.key) && Printable(p.schema, false)
  }

  lemma KeyedSchema(es: seq<Entry>, props: seq<Prop>)
    requires es != [] && |es| == |props| && forall i | 0 <= i < |es| :: Usable(es[i]) && Gives(es[i], props[i])
    requires forall i, j | 0 <= i < j < |props| :: props[i].key != props[j].key
    ensures ParseSchema(ObjectText("", Commas(WrittenAll(EntriesText(es, None))), "")) == Ok(props)
  {
    assert forall i | 0 <= i < |es| :: es[i].key == props[i].key;
    SchemaReadBack("", es, None, "", props);
  }

  lemma KeyedEntryFine(p: Prop, quote: Option<char>)
    requires PrintableProp(p) && (quote.Some? ==> Quote(quote.value))
    ensures Usable(KeyedEntry(p, quote)) && Gives(KeyedEntry(p, quote), p)
  {
    SchemaZed(p.schema, false);
    PrintedIsText(SchemaDoc(p.schema));
    SchemaRoundTrip(p.schema, false);
    WordIsKey(p.key, quote);
  }

  lemma WordIsKey(key: string, quote: Option<char>)
    requires AllWord(key) && (quote.Some? ==> Quote(quote.value))
    ensures KeyFine(quote, key) && (quote.Some? ==> Held(quote.value, key)) && forall c | c in key :: c !in ",()[]{}"
  {
    forall i | 0 <= i < |key| ensures NameChar(key[i]) { assert IsWord(key[i]); }
    assert forall c | c in key :: NameChar(c);
  }

  // ---------- an enumeration ----------

  predicate NoDot(s: string) {
    forall c | c in s :: c != '.' && c != '\n' && c != '\r' && c as int != 0x2028 && c as int != 0x2029
  }

  /** An enumeration whose values stand in any quotes comes back with the bare values. */
  lemma EnumReadBack(xs: seq<Item>)
    requires forall i | 0 <= i < |xs| :: ItemFine(xs[i])
    requires NoDot(Commas(ItemTexts(xs)))
    ensures ParseZodType("z.enum([" + Commas(ItemTexts(xs)) + "])") == Ok(Base("enum", [], Some([List(Strings(xs))])))
  {
    var items := Commas(ItemTexts(xs));
    var args := "([" + items + "])";
    ItemsReadBack(xs);
    EnumCall(items);
    ListArgument(items);
    EnumIsBase(args);
    EnumText(items);
    BaseCall("enum" + args, "enum", args);
  }

  lemma EnumText(items: string)
    requires NoDot(items)
    ensures var args := "([" + items + "])";
            && "z.enum([" + items + "])" == "z.enum" + args == "z" + ['.'] + ("enum" + args)
            && '.' !in "enum" + args && VisibleEnds("enum" + args)
  {
  }

  lemma EnumIsBase(args: string)
    ensures ParseZodType("z.enum" + args) == ParseBase("z.enum" + args)
  {
    var s := "z.enum" + args;
    assert s[2] == 'e' && Z_OBJECT[2] == 'o' && Z_ARRAY[2] == 'a';
  }

  /** A type that is one call behind the dot. */
  lemma BaseCall(c: string, name: string, args: string)
    requires '.' !in c && VisibleEnds(c) && MatchCall(c) == Some(Call(name, Some(args)))
    ensures ParseBase("z" + ['.'] + c) == Ok(Base(name, [], Some(ParseArguments(args))))
  {
    SplitOnFirst("z", '.', c);
    SplitOnNone(c, '.');
    TrimVisible("z");
    TrimVisible(c);
    assert ["z", c] + [] == ["z", c];
    UnfoldBase("z" + ['.'] + c, c, [], name, args, []);
  }

  lemma EnumCall(items: string)
    requires NoDot(items)
    ensures MatchCall("enum" + ("([" + items + "])")) == Some(Call("enum", Some("([" + items + "])")))
  {
    var args := "([" + items + "])";
    WordLengthOf("enum", args);
    assert ("enum" + args)[4..] == args && ("enum" + args)[..4] == "enum";
    forall i | 0 <= i < |args| ensures !IsLineEnd(args[i]) {
      if 2 <= i < |args| - 2 { assert args[i] == items[i - 2]; assert args[i] in items; }
    }
  }

  lemma ListArgument(items: string)
    ensures ParseArguments("([" + items + "])") == [List(ScanItems(items, "", Out))]
  {
    var inner := "[" + items + "]";
    BracketsInside(items);
    InnerOf('(', inner, ')');
    TrimVisible(inner);
    InnerOf('[', items, ']');
    UnfoldList("([" + items + "])", inner, items);
  }

  lemma BracketsInside(items: string)
    ensures var inner := "[" + items + "]";
            && "([" + items + "])" == ['('] + inner + [')'] && inner == ['['] + items + [']']
            && VisibleEnds(inner)
  {
  }

  lemma UnfoldList(argsStr: string, inner: string, items: string)
    requires Trim(Inner(argsStr)) == inner && |inner| >= 2 && inner[0] == '[' && inner[|inner| - 1] == ']' && Inner(inner) == items
    ensures ParseArguments(argsStr) == [List(ScanItems(items, "", Out))]
  {
  }

  // ---------- arguments in other forms ----------

  /** Quotes count as a string's only around list items and keys: an argument in single quotes keeps them. */
  lemma SingleQuotedArgument(s: string)
    requires ',' !in s
    ensures ParseArguments("('" + s + "')") == [Str("'" + s + "'")]
    ensures ParseValue("'" + s + "'") == Str("'" + s + "'")
  {
    var t := "'" + s + "'";
    QuotesInside(s);
    PlainArgument(t);
    PlainValue(t);
  }

  lemma QuotesInside(s: string)
    requires ',' !in s
    ensures var t := "'" + s + "'";
            "('" + s + "')" == "(" + t + ")" && VisibleEnds(t) && ',' !in t && t[0] == '\''
  {
  }

  lemma PlainValue(t: string)
    requires t != "" && t[0] != '"' && t[0] != '[' && !('0' <= t[0] <= '9')
    ensures ParseValue(t) == Str(t)
  {
    assert !IsDigit(t[0]);
  }

  /** An argument that is neither number nor string nor list is taken as it stands. */
  lemma PlainArgument(t: string)
    requires VisibleEnds(t) && ',' !in t && t[0] != '"' && t[0] != '[' && !('0' <= t[0] <= '9')
    ensures ParseArguments("(" + t + ")") == [Str(t)]
  {
    assert "(" + t + ")" == ['('] + t + [')'];
    InnerOf('(', t, ')');
    TrimVisible(t);
    assert !IsDigit(t[0]) && !AllDigits(t);
    SplitOnNone(t, ',');
    assert Inner("(" + t + ")") == t && Trim(t) == t;
    assert ParseScalars([t]) == [ParseScalar(Trim(t))] + ParseScalars([]);
    assert ParseArguments("(" + t + ")") == ParseScalars([t]);
  }

  // ---------- names ----------

  /** Letters without accents, digits and the underscore. */
  predicate NameChar(c: char) {
    'a' <= c <= 'z' || 'A' <= c <= 'Z' || '0' <= c <= '9' || c == '_'
  }

  predicate Name(w: string) {
    w != "" && forall c | c in w :: NameChar(c)
  }

  /** What a call is: a name alone, or with parentheses around a text of one line. */
  lemma CallsExactly(name: string, rest: string)
    requires Name(name) && (rest == "" || !NameChar(rest[0]))
    ensures MatchCall(name + rest) ==
              if rest == "" then Some(Call(name, None))
              else if |rest| >= 2 && rest[0] == '(' && rest[|rest| - 1] == ')'
                      && forall c | c in rest :: c != '\n' && c != '\r' && c as int != 0x2028 && c as int != 0x2029
                then Some(Call(name, Some(rest)))
              else None
  {
    assert forall i | 0 <= i < |name| :: name[i] in name;
    WordLengthOf(name, rest);
    assert (name + rest)[|name|..] == rest && (name + rest)[..|name|] == name;
    assert name + "" == name;
    assert forall i | 0 <= i < |rest| :: rest[i] in rest;
  }

  /** Without a name there is no call. */
  lemma NoCall(part: string)
    requires part == "" || !NameChar(part[0])
    ensures MatchCall(part) == None
  {
  }

  /** A base type without parentheses has no arguments; blanks around the parts do not count. */
  lemma BareBase(a: string, b: string, c: string, name: string, d: string)
    requires Blank(a) && Blank(b) && Blank(c) && Blank(d) && Name(name)
    ensures ParseBase((a + "z" + b) + ['.'] + (c + name + d)) == Ok(Base(name, [], None))
  {
    CallsExactly(name, "");
    assert name + "" == name;
    assert forall i | i in name :: i != '.' && '!' <= i <= '~';
    assert name[0] in name && name[|name| - 1] in name;
    assert '.' !in a + "z" + b && '.' !in c + name + d;
    SplitOnFirst(a + "z" + b, '.', c + name + d);
    SplitOnNone(c + name + d, '.');
    TrimBlanks(c, name, d);
    TrimBlanks(a, "z", b);
    UnfoldBareBase((a + "z" + b) + ['.'] + (c + name + d), a + "z" + b, c + name + d, name);
  }

  lemma UnfoldBareBase(s: string, head: string, part: string, name: string)
    requires SplitOn(s, '.') == [head] + [part] && Trim(head) == "z" && Trim(part) == name && MatchCall(name) == Some(Call(name, None))
    ensures ParseBase(s) == Ok(Base(name, [], None))
  {
    assert ([head] + [part])[2..] == [];
  }

  /** Nor do they around the modifiers of a base type. */
  lemma BlanksAroundModifier(a: string, part: string, b: string, rest: seq<string>)
    requires Blank(a) && Blank(b) && VisibleEnds(part)
    ensures BaseModifiers([a + part + b] + rest) == BaseModifiers([part] + rest)
  {
    TrimBlanks(a, part, b);
    TrimVisible(part);
    FirstBaseModifier(a + part + b, rest);
    FirstBaseModifier(part, rest);
  }

  lemma FirstBaseModifier(part: string, rest: seq<string>)
    ensures var call, more := MatchCall(Trim(part)), BaseModifiers(rest);
            BaseModifiers([part] + rest)
            == if call.None? then Err(BadModifier) else if more.Err? then more
               else Ok([Modifier(call.value.name, if call.value.args.None? then [] else ParseArguments(call.value.args.value))] + more.value)
  {
    assert ([part] + rest)[1..] == rest;
  }

  /** A modifier behind an array or object must be a call of an allowed name; one behind a base type must be a call. */
  lemma ModifierErrors(part: string, rest: seq<string>)
    ensures MatchCall(part) == None ==> ArrayModifiers([part] + rest) == Err(BadModifier)
    ensures MatchCall(Trim(part)) == None ==> BaseModifiers([part] + rest) == Err(BadModifier)
    ensures MatchCall(part).Some? && MatchCall(part).value.name !in ALLOWED_TYPES ==> ArrayModifiers([part] + rest) == Err(UnsupportedModifier)
  {
  }

  lemma UnknownObjectModifier(name: string, rest: string)
    requires Name(name) && name !in ALLOWED_TYPES && (rest == "" || !NameChar(rest[0]))
    ensures ObjectModifiers(name + rest) == Err(UnsupportedModifier)
  {
    assert forall i | 0 <= i < |name| :: name[i] in name;
    WordLengthOf(name, rest);
    assert (name + rest)[..|name|] == name;
  }

  /** Nothing else is a base type than what begins with `z` and a dot. */
  lemma NotZodAtAll(before: string, head: string, after: string, rest: string)
    requires Blank(before) && Blank(after) && VisibleEnds(head) && '.' !in head && head != "z"
    ensures ParseBase(before + head + after + ['.'] + rest) == Err(NotZod) && ParseBase(before + head + after) == Err(NotZod)
  {
    var part := before + head + after;
    assert '.' !in part;
    SplitOnFirst(part, '.', rest);
    SplitOnNone(part, '.');
    TrimBlanks(before, head, after);
  }

  /** A schema that does not begin with an object is refused. */
  lemma OnlyObjects(s: string)
    ensures !("z.object(" <= s) ==> ParseSchema(s) == Err(NotAnObject)
    ensures "z.object(" <= s && '}' !in s ==> ParseSchema(s) == Err(BadObject)
  {
    if '}' !in s { NoContent(s); }
  }

  lemma {:induction false} NoContent(s: string)
    requires '}' !in s
    ensures ObjectContent(s) == None
  {
    if |s| >= 10 {
      var open := 9 + SpaceLength(s[9..]);
      if open < |s| { NoClose(s[open + 1..]); }
      NoContent(s[1..]);
    }
  }

  // ---------- blanks inside parentheses, and what is taken when nothing follows ----------

  lemma ArgumentBlanks(a: string, t: string, b: string)
    requires Blank(a) && Blank(b) && VisibleEnds(t)
    ensures ParseArguments("(" + (a + t + b) + ")") == ParseArguments("(" + t + ")")
    ensures ParseComplexArguments("(" + (a + t + b) + ")") == ParseComplexArguments("(" + t + ")")
  {
    ParenthesesGo(a, t, b);
    ParenthesesGo("", t, "");
    assert "" + t + "" == t;
    SameInside("(" + (a + t + b) + ")", "(" + t + ")");
  }

  lemma SameInside(x: string, y: string)
    requires Trim(Inner(x)) == Trim(Inner(y))
    ensures ParseArguments(x) == ParseArguments(y)
    ensures ParseComplexArguments(x) == ParseComplexArguments(y)
  {
    assert ParseArguments(x) == ParseArguments(y);
  }

  lemma ParenthesesGo(a: string, t: string, b: string)
    requires Blank(a) && Blank(b) && VisibleEnds(t)
    ensures Trim(Inner("(" + (a + t + b) + ")")) == t
  {
    assert "(" + (a + t + b) + ")" == ['('] + (a + t + b) + [')'];
    InnerOf('(', a + t + b, ')');
    TrimBlanks(a, t, b);
  }

  lemma BlankArguments(w: string)
    requires Blank(w)
    ensures ParseArguments("(" + w + ")") == [] && ParseComplexArguments("(" + w + ")") == []
  {
    assert "(" + w + ")" == ['('] + w + [')'];
    InnerOf('(', w, ')');
    TrimBlank(w);
  }

  lemma ArrayBlanks(a: string, t: string, b: string)
    requires Blank(a) && Blank(b) && VisibleEnds(t)
    ensures ArrayContent("z.array(" + (a + t + b) + ")") == Some(t)
  {
    var s := "z.array(" + (a + t + b) + ")";
    assert s[8..|s| - 1] == a + t + b;
    TrimBlanks(a, t, b);
  }

  lemma OpenArray(s: string)
    requires "z.array(" <= s && (s == "z.array(" || s[|s| - 1] != ')')
    ensures ParseArray(s) == Err(BadArray)
  {
  }

  /** Where no modifier is read, the whole text is searched for the object or array, not the part up to its end. */
  lemma WholeWithoutModifiers(s: string)
    ensures "z.object(" <= s && ExtractObject(s).Ok? ==>
              var e := ExtractObject(s).value; (e.mods == None ==> e.part == s) && (e.mods.Some? ==> e.mods.value != [])
    ensures "z.array(" <= s && ExtractArray(s).Ok? ==> var e := ExtractArray(s).value; e.mods == None ==> e.part == s
  {
  }

  /** The object may begin anywhere in the searched text. */
  lemma {:induction false} ObjectIsSearched(head: string, t: string)
    requires 'z' !in head && |t| >= 10
    ensures ObjectContent(head + t) == ObjectContent(t)
  {
    if head == "" {
      assert head + t == t;
    } else {
      assert (head + t)[0] == head[0] && head[0] in head && Z_OBJECT[0] == 'z';
      assert (head + t)[1..] == head[1..] + t;
      ObjectIsSearched(head[1..], t);
    }
  }

  // ---------- numbers, and calls behind an object ----------

  /** Digits are read from the left, each worth ten times less than the one before it. */
  lemma NumbersMean(s: string, c: char)
    requires (forall i | 0 <= i < |s| :: '0' <= s[i] <= '9') && '0' <= c <= '9'
    ensures forall i | 0 <= i < |s + [c]| :: IsDigit((s + [c])[i])
    ensures ParseNat("") == 0 && ParseNat(s + [c]) == 10 * ParseNat(s) + (c - '0') as int
  {
    assert (s + [c])[..|s + [c]| - 1] == s;
  }

  lemma WordsOnly(name: string, rest: string)
    requires Name(name) && (rest == "" || !NameChar(rest[0]))
    ensures WordLength(name + rest) == |name| && (name + rest)[..|name|] == name && (name + rest)[|name|..] == rest
  {
    assert forall i | 0 <= i < |name| :: name[i] in name;
    WordLengthOf(name, rest);
  }

  /** A parenthesis that is never closed makes no arguments, and ends the chain of calls. */
  lemma OpenArguments(name: string, t: string)
    requires Name(name) && name in ALLOWED_TYPES && ')' !in t
    ensures ObjectModifiers(name + ("(" + t)) == Ok([Modifier(name, [])])
  {
    var rest := "(" + t;
    WordsOnly(name, rest);
    NeverClosed(rest, 0, |name|);
    assert ObjectModifiers(SkipDot(rest)) == Ok([]);
    assert TakeArgs(name + rest, |name|) == Taken(None, rest);
    assert [Modifier(name, [])] + [] == [Modifier(name, [])];
    ObjectModifiersTurn(name + rest, |name|, [], Ok([]));
  }

  lemma {:induction false} NeverClosed(s: string, depth: int, at: nat)
    requires ')' !in s
    ensures CloseAt(s, depth, at) == None
    decreases |s|
  {
    if s != "" {
      NeverClosed(s[1..], depth + (if s[0] == '(' then 1 else if s[0] == ')' then -1 else 0), at + 1);
    }
  }

  /** Behind closed parentheses the dot before the next call may be missing. */
  lemma DotMayBeMissing(name: string, m: string)
    requires Name(name) && name in ALLOWED_TYPES && (m == "" || m[0] != '.')
    ensures ObjectModifiers(name + ("()" + ("." + m))) == ObjectModifiers(name + ("()" + m))
  {
    EmptyCall(name, m, m);
    EmptyCall(name, "." + m, m);
  }

  lemma EmptyCall(name: string, m: string, next: string)
    requires Name(name) && name in ALLOWED_TYPES && SkipDot(m) == next
    ensures var more := ObjectModifiers(next);
            ObjectModifiers(name + ("()" + m)) == if more.Err? then more else Ok([Modifier(name, [])] + more.value)
  {
    var s := name + ("()" + m);
    WordsOnly(name, "()" + m);
    assert ("()" + m)[1..] == ")" + m;
    assert CloseAt("()" + m, 0, |name|) == CloseAt(")" + m, 1, |name| + 1) == Some(|name| + 2);
    assert s[|name|..|name| + 2] == "()" && s[|name| + 2..] == m;
    assert Inner("()") == "" && ParseComplexArguments("()") == [];
    ObjectModifiersTurn(s, |name|, [], ObjectModifiers(next));
  }
}
