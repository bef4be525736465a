/**
  The escape codec of packages/components/src/utils.ts: seven characters are replaced by
  FLOWISE_ tokens in seven passes, and a second set of seven passes puts them back.
 */
module EscapeCodec {

  datatype Escape = Escape(plain: char, token: string)

  const TABLE: seq<Escape> := [
    Escape('\"', "FLOWISE_DOUBLE_QUOTE"),
    Escape('\n', "FLOWISE_NEWLINE"),
    Escape(8 as char, "FLOWISE_BACKSPACE"),
    Escape(12 as char, "FLOWISE_FORM_FEED"),
    Escape('\r', "FLOWISE_CARRIAGE_RETURN"),
    Escape('\t', "FLOWISE_TAB"),
    Escape('\\', "FLOWISE_BACKSLASH")]

  /** JavaScript's `replaceAll`: leftmost, non-overlapping. */
  function ReplaceAll(s: string, pat: string, rep: string): string
    requires pat != ""
    decreases |s|
  {
    if s == "" then ""
    else if pat <= s then rep + ReplaceAll(s[|pat|..], pat, rep)
    else [s[0]] + ReplaceAll(s[1..], pat, rep)
  }

  /** One pass over the table entry `k`. */
  function Pass(s: string, k: nat, reverse: bool): string
    requires k < |TABLE|
  {
    if reverse then ReplaceAll(s, TABLE[k].token, [TABLE[k].plain]) else ReplaceAll(s, [TABLE[k].plain], TABLE[k].token)
  }

  /** The first `n` passes. */
  function Passes(s: string, n: nat, reverse: bool): string
    requires n <= |TABLE|
  {
    if n == 0 then s else Pass(Passes(s, n - 1, reverse), n - 1, reverse)
  }

  function HandleEscapes(s: string, reverse: bool): string {
    Passes(s, |TABLE|, reverse)
  }

  /** `handleEscapesJSONParse`. */
  method HandleEscapesJSONParse(input: string, reverse: bool) returns (output: string)
    ensures output == HandleEscapes(input, reverse)
  {
    output := input;
    for k := 0 to |TABLE|
      invariant output == Passes(input, k, reverse)
    {
      output := Pass(output, k, reverse);
    }
  }

  predicate Contains(s: string, pat: string) {
    exists i | 0 <= i <= |s| :: pat <= s[i..]
  }

  predicate TokenFree(s: string) {
    forall k | 0 <= k < |TABLE| :: !Contains(s, TABLE[k].token)
  }

  // ---------- why tokens cannot be confused ----------

  /** Every token starts with "FL", and nowhere else in a token does an F come before an L or the end. */
  predicate ClearStart(t: string) {
    && |t| >= 2 && t[0] == 'F' && t[1] == 'L'
    && forall m | 0 < m < |t| :: t[m] == 'F' ==> m + 1 < |t| && t[m + 1] != 'L'
  }

  /** Two tokens differ before either ends. */
  predicate Differ(t: string, u: string) {
    exists i | 0 <= i < |t| && i < |u| :: t[i] != u[i]
  }

  lemma TokenLetters(k: nat)
    requires k < |TABLE|
    ensures forall m | 0 <= m < |TABLE[k].token| :: 'A' <= TABLE[k].token[m] <= 'Z' || TABLE[k].token[m] == '_'
  {
  }

  lemma TokenStarts(k: nat)
    requires k < |TABLE|
    ensures ClearStart(TABLE[k].token)
  {
  }

  lemma TokensDiffer(j: nat, k: nat)
    requires j < |TABLE| && k < |TABLE| && j != k
    ensures Differ(TABLE[j].token, TABLE[k].token)
    ensures TABLE[j].plain != TABLE[k].plain
  {
    var t, u := TABLE[j].token, TABLE[k].token;
    assert t[8] != u[8] || t[13] != u[13];
  }

  // ---------- character-wise view ----------

  /** The table entry of a character, or |TABLE|. */
  function Lookup(c: char, from: nat := 0): (k: nat)
    requires from <= |TABLE|
    ensures from <= k <= |TABLE|
    ensures k < |TABLE| ==> TABLE[k].plain == c
    ensures forall j | from <= j < k :: TABLE[j].plain != c
    decreases |TABLE| - from
  {
    if from == |TABLE| || TABLE[from].plain == c then from else Lookup(c, from + 1)
  }

  lemma LookupEntry(k: nat)
    requires k < |TABLE|
    ensures Lookup(TABLE[k].plain) == k
  {
    var j := Lookup(TABLE[k].plain);
    if j != k {
      TokensDiffer(j, k);
    }
  }

  function Piece(c: char, lo: nat, hi: nat): (p: string)
    ensures p != ""
  {
    var k := Lookup(c);
    if lo <= k < hi && k < |TABLE| then (TokenStarts(k); TABLE[k].token) else [c]
  }

  /** Characters with table index in lo..hi as tokens, the rest as they are. */
  function Enc(s: string, lo: nat, hi: nat): string {
    if s == "" then "" else Piece(s[0], lo, hi) + Enc(s[1..], lo, hi)
  }

  predicate NoPlain(t: string) {
    forall m | 0 <= m < |t| :: Lookup(t[m]) == |TABLE|
  }

  lemma TokenNoPlain(k: nat)
    requires k < |TABLE|
    ensures NoPlain(TABLE[k].token)
  {
    TokenLetters(k);
    var t := TABLE[k].token;
    forall m | 0 <= m < |t| ensures Lookup(t[m]) == |TABLE| {
      assert 'A' <= t[m] <= 'Z' || t[m] == '_';
      assert forall j | 0 <= j < |TABLE| :: TABLE[j].plain != t[m];
    }
  }

  lemma EncHead(c: char, u: string, lo: nat, hi: nat)
    ensures Enc([c] + u, lo, hi) == Piece(c, lo, hi) + Enc(u, lo, hi)
  {
    assert ([c] + u)[1..] == u;
  }

  lemma EncLetter(c: char, u: string, lo: nat, hi: nat)
    requires Lookup(c) == |TABLE|
    ensures Enc([c] + u, lo, hi) == [c] + Enc(u, lo, hi)
  {
    EncHead(c, u, lo, hi);
  }

  lemma NoPlainTail(t: string)
    requires NoPlain(t) && t != ""
    ensures NoPlain(t[1..]) && Lookup(t[0]) == |TABLE|
  {
    forall m | 0 <= m < |t[1..]| ensures Lookup(t[1..][m]) == |TABLE| { assert t[1..][m] == t[m + 1]; }
  }

  lemma HeadAndTail(t: string, u: string)
    requires t != ""
    ensures t + u == [t[0]] + (t[1..] + u)
  {
  }

  lemma {:induction false} EncKeepsLetters(t: string, u: string, lo: nat, hi: nat)
    requires NoPlain(t)
    ensures Enc(t + u, lo, hi) == t + Enc(u, lo, hi)
  {
    if t == "" {
      assert t + u == u;
    } else {
      var c, t' := t[0], t[1..];
      NoPlainTail(t);
      HeadAndTail(t, u);
      EncLetter(c, t' + u, lo, hi);
      EncKeepsLetters(t', u, lo, hi);
      HeadAndTail(t, Enc(u, lo, hi));
    }
  }

  // ---------- the forward passes ----------

  lemma {:induction false} ReplaceSkips(t: string, u: string, pat: string, rep: string)
    requires pat != ""
    requires forall m | 0 <= m < |t| :: !(pat <= (t + u)[m..])
    ensures ReplaceAll(t + u, pat, rep) == t + ReplaceAll(u, pat, rep)
  {
    if t == "" {
      assert t + u == u;
    } else {
      assert (t + u)[0..] == t + u;
      assert (t + u)[1..] == t[1..] + u;
      forall m | 0 <= m < |t[1..]| ensures !(pat <= (t[1..] + u)[m..]) {
        assert (t[1..] + u)[m..] == (t + u)[m + 1..];
      }
      ReplaceSkips(t[1..], u, pat, rep);
      assert t == [t[0]] + t[1..];
    }
  }

  lemma {:induction false} ForwardStep(s: string, k: nat)
    requires k < |TABLE|
    ensures ReplaceAll(Enc(s, 0, k), [TABLE[k].plain], TABLE[k].token) == Enc(s, 0, k + 1)
  {
    if s != "" {
      var c, t := TABLE[k].plain, TABLE[k].token;
      var p, rest := Piece(s[0], 0, k), Enc(s[1..], 0, k);
      ForwardStep(s[1..], k);
      var j := Lookup(s[0]);
      if j == k {
        assert s[0] == c && p == [c];
        assert [c] <= p + rest && (p + rest)[1..] == rest;
      } else {
        LookupEntry(k);
        if j < k { TokenNoPlain(j); }
        forall m | 0 <= m < |p| ensures !([c] <= (p + rest)[m..]) {
          assert (p + rest)[m..][0] == p[m];
        }
        ReplaceSkips(p, rest, [c], t);
      }
    }
  }

  lemma {:induction false} ForwardPasses(s: string, n: nat)
    requires n <= |TABLE|
    ensures Passes(s, n, false) == Enc(s, 0, n)
  {
    if n == 0 {
      EncNothing(s, 0, 0);
    } else {
      ForwardPasses(s, n - 1);
      ForwardStep(s, n - 1);
    }
  }

  lemma {:induction false} EncNothing(s: string, lo: nat, hi: nat)
    requires hi <= lo || |TABLE| <= lo
    ensures Enc(s, lo, hi) == s
  {
    if s != "" {
      EncNothing(s[1..], lo, hi);
      assert s == [s[0]] + s[1..];
    }
  }

  // ---------- the reverse passes ----------

  /** A token cannot begin inside another one. */
  lemma NoStartInside(t: string, u: string, pat: string, m: nat)
    requires ClearStart(t) && ClearStart(pat) && Differ(t, pat) && m < |t|
    ensures !(pat <= (t + u)[m..])
  {
    var w := (t + u)[m..];
    if m == 0 {
      var i :| 0 <= i < |t| && i < |pat| && t[i] != pat[i];
      assert w[i] == t[i];
    } else {
      assert w[0] == t[m];
      if t[m] == 'F' {
        assert w[1] == t[m + 1];
      }
    }
  }

  /** The tail of a token is not the beginning of one. */
  lemma TailIsNoStart(pat: string, m: nat, t: string, u: string)
    requires ClearStart(pat) && ClearStart(t) && 0 < m < |pat|
    ensures !(pat[m..] <= t + u)
  {
    assert pat[m..][0] == pat[m];
    if pat[m] == 'F' {
      assert pat[m..][1] == pat[m + 1];
      assert (t + u)[1] == t[1];
    }
  }

  /** A token cannot begin in literal text and end in another token. */
  lemma {:induction false} NoCrossing(s: string, lo: nat, pat: string, m: nat)
    requires ClearStart(pat) && 0 < m <= |pat|
    requires pat[m..] <= Enc(s, lo, |TABLE|)
    ensures pat[m..] <= s
  {
    var q := pat[m..];
    if q != "" {
      assert q == [q[0]] + pat[m + 1..] && s == [s[0]] + s[1..];
      var k := Lookup(s[0]);
      if lo <= k < |TABLE| {
        TokenStarts(k);
        TailIsNoStart(pat, m, TABLE[k].token, Enc(s[1..], lo, |TABLE|));
        assert false;
      } else {
        assert Enc(s, lo, |TABLE|)[1..] == Enc(s[1..], lo, |TABLE|);
        assert pat[m + 1..] == q[1..];
        NoCrossing(s[1..], lo, pat, m + 1);
      }
    }
  }

  /** If literal text does not start with a token, neither does its encoding. */
  lemma LiteralStart(s: string, lo: nat, pat: string)
    requires s != "" && ClearStart(pat) && !(pat <= s)
    requires !(lo <= Lookup(s[0]) < |TABLE|)
    ensures !(pat <= Enc(s, lo, |TABLE|))
  {
    var e := Enc(s, lo, |TABLE|);
    assert pat == [pat[0]] + pat[1..] && s == [s[0]] + s[1..];
    assert e[1..] == Enc(s[1..], lo, |TABLE|);
    if pat <= e {
      assert pat[1..] <= e[1..];
      NoCrossing(s[1..], lo, pat, 1);
      assert false;
    }
  }

  /** Replacing one token in an encoded string, seen from its first piece. */
  lemma ReplaceInEncoded(s: string, k: nat)
    requires k < |TABLE| && s != "" && !(TABLE[k].token <= s)
    ensures Pass(Enc(s, k, |TABLE|), k, true) == Piece(s[0], k + 1, |TABLE|) + Pass(Enc(s[1..], k, |TABLE|), k, true)
  {
    var N, c, t := |TABLE|, TABLE[k].plain, TABLE[k].token;
    var e, p, rest := Enc(s, k, N), Piece(s[0], k, N), Enc(s[1..], k, N);
    LookupEntry(k);
    TokenStarts(k);
    var j := Lookup(s[0]);
    if j == k {
      assert e == t + rest && e[|t|..] == rest;
    } else if k < j < N {
      TokenStarts(j);
      TokensDiffer(j, k);
      forall m | 0 <= m < |p| ensures !(t <= (p + rest)[m..]) { NoStartInside(p, rest, t, m); }
      ReplaceSkips(p, rest, t, [c]);
    } else {
      LiteralStart(s, k, t);
      assert e[1..] == rest;
    }
  }

  /** The reverse pass `k` commutes with what is still encoded. */
  lemma {:induction false} ReverseStep(s: string, k: nat)
    requires k < |TABLE|
    ensures Pass(Enc(s, k, |TABLE|), k, true) == Enc(Pass(s, k, true), k + 1, |TABLE|)
    decreases |s|
  {
    var t := TABLE[k].token;
    if s != "" {
      TokenStarts(k);
      if t <= s {
        ReverseStep(s[|t|..], k);
        ReplaceLeadingToken(s, k);
      } else {
        ReverseStep(s[1..], k);
        ReplaceInEncoded(s, k);
        EncHead(s[0], Pass(s[1..], k, true), k + 1, |TABLE|);
      }
    }
  }

  lemma ReplaceLeadingToken(s: string, k: nat)
    requires k < |TABLE| && TABLE[k].token <= s
    ensures var u := s[|TABLE[k].token|..];
            && Pass(Enc(s, k, |TABLE|), k, true) == [TABLE[k].plain] + Pass(Enc(u, k, |TABLE|), k, true)
            && Enc(Pass(s, k, true), k + 1, |TABLE|) == [TABLE[k].plain] + Enc(Pass(u, k, true), k + 1, |TABLE|)
  {
    var c, t := TABLE[k].plain, TABLE[k].token;
    var u := s[|t|..];
    assert s == t + u;
    TokenStarts(k);
    TokenNoPlain(k);
    EncKeepsLetters(t, u, k, |TABLE|);
    assert Enc(s, k, |TABLE|)[|t|..] == Enc(u, k, |TABLE|);
    LookupEntry(k);
    EncHead(c, Pass(u, k, true), k + 1, |TABLE|);
  }

  lemma {:induction false} ReversePasses(s: string, n: nat)
    requires n <= |TABLE|
    ensures Passes(Enc(s, 0, |TABLE|), n, true) == Enc(Passes(s, n, true), n, |TABLE|)
  {
    if n > 0 {
      ReversePasses(s, n - 1);
      NextPass(Enc(s, 0, |TABLE|), n - 1);
      NextPass(s, n - 1);
      ReverseStep(Passes(s, n - 1, true), n - 1);
    }
  }

  lemma NextPass(s: string, n: nat)
    requires n < |TABLE|
    ensures Passes(s, n + 1, true) == Pass(Passes(s, n, true), n, true)
  {
  }

  /** Decoding what was encoded is the same as decoding the original: encoding adds nothing that decoding keeps. */
  lemma DecodeAfterEncode(s: string)
    ensures HandleEscapes(HandleEscapes(s, false), true) == HandleEscapes(s, true)
  {
    ForwardPasses(s, |TABLE|);
    ReversePasses(s, |TABLE|);
    EncNothing(Passes(s, |TABLE|, true), |TABLE|, |TABLE|);
  }

  lemma {:induction false} ReplaceShrinks(s: string, pat: string, c: char)
    requires |pat| >= 2
    ensures |ReplaceAll(s, pat, [c])| <= |s|
    ensures Contains(s, pat) ==> |ReplaceAll(s, pat, [c])| < |s|
    ensures !Contains(s, pat) ==> ReplaceAll(s, pat, [c]) == s
    decreases |s|
  {
    if s == "" {
    } else if pat <= s {
      ReplaceShrinks(s[|pat|..], pat, c);
      assert s[0..] == s;
    } else {
      ReplaceShrinks(s[1..], pat, c);
      assert s == [s[0]] + s[1..];
      if i :| 0 <= i <= |s| && pat <= s[i..] {
        assert i > 0 by { assert s[0..] == s; }
        assert s[1..][i - 1..] == s[i..];
      }
      if i :| 0 <= i <= |s[1..]| && pat <= s[1..][i..] {
        assert s[1..][i..] == s[i + 1..];
      }
    }
  }

  lemma {:induction false} DecodeShrinks(s: string, n: nat)
    requires n <= |TABLE|
    ensures |Passes(s, n, true)| <= |s|
    ensures Passes(s, n, true) == s <==> forall k | 0 <= k < n :: !Contains(s, TABLE[k].token)
    ensures Passes(s, n, true) != s ==> |Passes(s, n, true)| < |s|
  {
    if n > 0 {
      DecodeShrinks(s, n - 1);
      TokenStarts(n - 1);
      ReplaceShrinks(Passes(s, n - 1, true), TABLE[n - 1].token, TABLE[n - 1].plain);
    }
  }

  /** The round trip holds exactly for the strings that contain no token. */
  lemma RoundTrip(s: string)
    ensures HandleEscapes(HandleEscapes(s, false), true) == s <==> TokenFree(s)
  {
    DecodeAfterEncode(s);
    DecodeShrinks(s, |TABLE|);
  }

  // ---------- which characters, and which tokens ----------

  /** What stands for a character in an encoded text. */
  function Encoded(c: char): string {
    if c == '\"' then "FLOWISE_DOUBLE_QUOTE"
    else if c == '\n' then "FLOWISE_NEWLINE"
    else if c as int == 8 then "FLOWISE_BACKSPACE"
    else if c as int == 12 then "FLOWISE_FORM_FEED"
    else if c == '\r' then "FLOWISE_CARRIAGE_RETURN"
    else if c == '\t' then "FLOWISE_TAB"
    else if c == '\\' then "FLOWISE_BACKSLASH"
    else [c]
  }

  lemma PieceIs(c: char)
    ensures Piece(c, 0, |TABLE|) == Encoded(c)
  {
    LookupIs(c);
  }

  lemma LookupIs(c: char)
    ensures Lookup(c) == if c == '\"' then 0 else if c == '\n' then 1 else if c as int == 8 then 2 else if c as int == 12 then 3
                         else if c == '\r' then 4 else if c == '\t' then 5 else if c == '\\' then 6 else 7
  {
    var k := Lookup(c);
    assert k < 7 ==> TABLE[k].plain == c;
    assert forall j | 0 <= j < k :: TABLE[j].plain != c;
    assert TABLE[0].plain == '\"' && TABLE[1].plain == '\n' && TABLE[2].plain as int == 8 && TABLE[3].plain as int == 12;
    assert TABLE[4].plain == '\r' && TABLE[5].plain == '\t' && TABLE[6].plain == '\\';
  }

  /** Encoding replaces each of the seven characters by its token and leaves every other one, one after the other. */
  lemma {:induction false} EncodingMeans(a: string, c: char, b: string)
    ensures HandleEscapes("", false) == ""
    ensures HandleEscapes([c], false) == Encoded(c)
    ensures HandleEscapes(a + b, false) == HandleEscapes(a, false) + HandleEscapes(b, false)
  {
    ForwardPasses("", |TABLE|);
    ForwardPasses([c], |TABLE|);
    ForwardPasses(a, |TABLE|);
    ForwardPasses(b, |TABLE|);
    ForwardPasses(a + b, |TABLE|);
    PieceIs(c);
    assert [c][1..] == "" && Enc([c], 0, |TABLE|) == Piece(c, 0, |TABLE|) + Enc("", 0, |TABLE|);
    EncConcat(a, b);
  }

  lemma {:induction false} EncConcat(a: string, b: string)
    ensures Enc(a + b, 0, |TABLE|) == Enc(a, 0, |TABLE|) + Enc(b, 0, |TABLE|)
  {
    if a == "" {
      assert a + b == b;
    } else {
      assert (a + b)[1..] == a[1..] + b;
      EncConcat(a[1..], b);
    }
  }

  /** A character that JSON would have to escape. */
  predicate Special(c: char) {
    c == '\"' || c == '\n' || c as int == 8 || c as int == 12 || c == '\r' || c == '\t' || c == '\\'
  }

  /** An encoded text holds none of the seven characters. */
  lemma {:induction false} EncodedIsPlain(s: string)
    ensures forall i | 0 <= i < |HandleEscapes(s, false)| :: !Special(HandleEscapes(s, false)[i])
  {
    EncodingMeans("", ' ', "");
    if s != "" {
      EncodingMeans([s[0]], s[0], s[1..]);
      assert [s[0]] + s[1..] == s;
      EncodedIsPlain(s[1..]);
      EncodedLetters(s[0]);
    }
  }

  lemma EncodedLetters(c: char)
    ensures forall i | 0 <= i < |Encoded(c)| :: !Special(Encoded(c)[i])
    ensures Special(c) <==> Encoded(c) != [c]
  {
    PieceIs(c);
    LookupIs(c);
    if Special(c) {
      TokenLetters(Lookup(c));
    }
  }

  /** Each token alone is decoded to its character. */
  lemma TokenDecoded(c: char)
    requires Special(c)
    ensures HandleEscapes(Encoded(c), true) == [c]
  {
    EncodingMeans("", c, "");
    forall k | 0 <= k < |TABLE| ensures !Contains([c], TABLE[k].token) {
      TokenStarts(k);
    }
    RoundTrip([c]);
  }

  /** A text without a token is one that holds none of these. */
  lemma TokenFreeMeans(s: string)
    ensures TokenFree(s) <==>
              && !Contains(s, "FLOWISE_DOUBLE_QUOTE") && !Contains(s, "FLOWISE_NEWLINE") && !Contains(s, "FLOWISE_BACKSPACE")
              && !Contains(s, "FLOWISE_FORM_FEED") && !Contains(s, "FLOWISE_CARRIAGE_RETURN") && !Contains(s, "FLOWISE_TAB")
              && !Contains(s, "FLOWISE_BACKSLASH")
  {
    assert TABLE[0].token == "FLOWISE_DOUBLE_QUOTE" && TABLE[1].token == "FLOWISE_NEWLINE" && TABLE[2].token == "FLOWISE_BACKSPACE";
    assert TABLE[3].token == "FLOWISE_FORM_FEED" && TABLE[4].token == "FLOWISE_CARRIAGE_RETURN" && TABLE[5].token == "FLOWISE_TAB";
    assert TABLE[6].token == "FLOWISE_BACKSLASH";
  }

  // ---------- nested values ----------

  datatype Field = Field(key: string, value: Json)

  /** A value as `typeof` sees it: strings, objects and arrays (null is an object without fields), anything else. */
  datatype Json = Str(s: string) | Object(fields: seq<Field>) | Other

  /** `handleEscapeCharacters`. */
  function HandleValue(v: Json, reverse: bool): Json
    decreases v
  {
    match v
    case Str(s) => Str(HandleEscapes(s, reverse))
    case Object(fields) => Object(HandleFields(fields, reverse))
    case Other => Other
  }

  /** `iterateEscapesJSONParse`. */
  function HandleFields(fields: seq<Field>, reverse: bool): seq<Field>
    decreases fields
  {
    if fields == [] then []
    else [Field(fields[0].key, HandleValue(fields[0].value, reverse))] + HandleFields(fields[1..], reverse)
  }

  /** Field by field: the keys and their order stay, the values are handled. */
  lemma {:induction false} HandledFields(fields: seq<Field>, reverse: bool, i: nat)
    requires i < |fields|
    ensures |HandleFields(fields, reverse)| == |fields|
    ensures HandleFields(fields, reverse)[i].key == fields[i].key
    ensures HandleFields(fields, reverse)[i].value ==
              match fields[i].value
              case Str(s) => Str(HandleEscapes(s, reverse))
              case Object(inner) => Object(HandleFields(inner, reverse))
              case Other => Other
  {
    if i > 0 {
      HandledFields(fields[1..], reverse, i - 1);
    } else if |fields| > 1 {
      HandledFields(fields[1..], reverse, 0);
    }
  }

  /** No string anywhere in the value contains a token; keys do not matter. */
  predicate ValueTokenFree(v: Json)
    decreases v
  {
    match v
    case Str(s) => TokenFree(s)
    case Object(fields) => FieldsTokenFree(fields)
    case Other => true
  }

  predicate FieldsTokenFree(fields: seq<Field>)
    decreases fields
  {
    fields == [] || (ValueTokenFree(fields[0].value) && FieldsTokenFree(fields[1..]))
  }

  lemma {:induction false} ValueRoundTrip(v: Json)
    ensures HandleValue(HandleValue(v, false), true) == v <==> ValueTokenFree(v)
    decreases v
  {
    match v
    case Str(s) => RoundTrip(s);
    case Object(fields) => FieldsRoundTrip(fields);
    case Other =>
  }

  lemma {:induction false} FieldsRoundTrip(fields: seq<Field>)
    ensures HandleFields(HandleFields(fields, false), true) == fields <==> FieldsTokenFree(fields)
    decreases fields
  {
    if fields != [] {
      ValueRoundTrip(fields[0].value);
      FieldsRoundTrip(fields[1..]);
      var fwd := HandleFields(fields, false);
      assert fwd[1..] == HandleFields(fields[1..], false);
      var back := HandleFields(fwd, true);
      assert back == [Field(fields[0].key, HandleValue(fwd[0].value, true))] + HandleFields(fwd[1..], true);
      assert fields == [fields[0]] + fields[1..];
      assert back == fields ==> back[0] == fields[0] && back[1..] == fields[1..];
      assert back[1..] == HandleFields(fwd[1..], true);
    }
  }
}
