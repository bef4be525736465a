/**
  The schema-string parser of packages/components/src/secureZodParser.ts: hand-written scanners
  that count brackets, and a recursive descent over the text they cut out.
 */
module ZodParser {
  import opened Common
  import opened ZodText

  // ---------- what the parser returns ----------

  /** An argument; a quoted and a bare string come out the same. */
  datatype Arg = Num(n: nat) | Str(s: string) | List(items: seq<string>) | Literal(fields: seq<Field>)
  datatype Field = Field(key: string, value: Arg)

  datatype Modifier = Modifier(name: string, args: seq<Arg>)

  /** `mods` is None where the field is absent. */
  datatype Schema =
    | Base(base: string, modifiers: seq<Modifier>, baseArgs: Option<seq<Arg>>)
    | Nested(props: seq<Prop>, mods: Option<seq<Modifier>>)
    | ArrayOfObjects(props: seq<Prop>, mods: Option<seq<Modifier>>)
    | SimpleArray(inner: Schema, mods: Option<seq<Modifier>>)
  datatype Prop = Prop(key: string, schema: Schema)

  datatype Error = NotAnObject | BadObject | BadArray | NotZod | BadBase | BadModifier | UnsupportedType | UnsupportedModifier
  datatype Result<+T> = Ok(value: T) | Err(error: Error)

  const ALLOWED_TYPES := [
    "string", "number", "int", "boolean", "date", "object", "array", "enum", "optional", "max", "min", "describe", "default"]

  const Z_OBJECT := "z.object("
  const Z_ARRAY := "z.array("

  // ---------- splitProperties ----------

  /** Outside a string, or inside one; `escaped` tells that the last character was a backslash. */
  datatype Mode = Out | In(quote: char, escaped: bool)

  function NextMode(m: Mode, c: char): Mode {
    match m
    case Out => if IsQuote(c) then In(c, false) else Out
    case In(q, esc) => if c == q && !esc then Out else In(q, c == '\\')
  }

  predicate Opening(c: char) {
    c == '(' || c == '[' || c == '{'
  }

  predicate Closing(c: char) {
    c == ')' || c == ']' || c == '}'
  }

  function NextDepth(d: int, m: Mode, c: char): int {
    if m.In? || IsQuote(c) then d else if Opening(c) then d + 1 else if Closing(c) then d - 1 else d
  }

  /** The pieces of `s`, when `cur` has been collected for the first of them. */
  function Scan(s: string, cur: string, depth: int, mode: Mode): seq<string>
    decreases |s|
  {
    if s == "" then if Trim(cur) == "" then [] else [Trim(cur)]
    else if mode.Out? && s[0] == ',' && depth == 0 then [Trim(cur)] + Scan(s[1..], "", 0, Out)
    else Scan(s[1..], cur + [s[0]], NextDepth(depth, mode, s[0]), NextMode(mode, s[0]))
  }

  function Split(content: string): (pieces: seq<string>)
    ensures forall p | p in pieces :: |p| <= |content|
  {
    PiecesAreShort(content, "", 0, Out);
    Scan(content, "", 0, Out)
  }

  /** No piece is longer than the text it was cut from, which makes the recursive descent terminate. */
  lemma {:induction false} PiecesAreShort(s: string, cur: string, depth: int, mode: Mode)
    ensures forall p | p in Scan(s, cur, depth, mode) :: |p| <= |cur| + |s|
    decreases |s|
  {
    if s == "" {
    } else if mode.Out? && s[0] == ',' && depth == 0 {
      PiecesAreShort(s[1..], "", 0, Out);
    } else {
      PiecesAreShort(s[1..], cur + [s[0]], NextDepth(depth, mode, s[0]), NextMode(mode, s[0]));
    }
  }

  /** `splitProperties`. */
  method SplitProperties(content: string) returns (properties: seq<string>)
    ensures properties == Split(content)
  {
    properties := [];
    var current := "";
    var depth := 0;
    var inString, stringChar := false, ' ';
    ghost var mode := Out;
    for i := 0 to |content|
      invariant mode == if inString then In(stringChar, i > 0 && content[i - 1] == '\\') else Out
      invariant inString ==> IsQuote(stringChar)
      invariant properties + Scan(content[i..], current, depth, mode) == Split(content)
    {
      var c := content[i];
      assert content[i..][0] == c && content[i..][1..] == content[i + 1..];
      ghost var mode' := NextMode(mode, c);
      if !inString && IsQuote(c) {
        inString, stringChar := true, c;
      } else if inString && c == stringChar && (i == 0 || content[i - 1] != '\\') {
        inString := false;
      } else if !inString {
        if Opening(c) {
          depth := depth + 1;
        } else if Closing(c) {
          depth := depth - 1;
        } else if c == ',' && depth == 0 {
          properties := properties + [Trim(current)];
          current := "";
          continue;
        }
      }
      current := current + [c];
      mode := mode';
    }
    if Trim(current) != "" {
      properties := properties + [Trim(current)];
    }
  }

  // ---------- parseArrayContent ----------

  function ScanItems(s: string, cur: string, mode: Mode): seq<string>
    decreases |s|
  {
    if s == "" then if Trim(cur) == "" then [] else [StripQuotes(Trim(cur))]
    else if mode.Out? && s[0] == ',' then [StripQuotes(Trim(cur))] + ScanItems(s[1..], "", Out)
    else ScanItems(s[1..], cur + [s[0]], NextMode(mode, s[0]))
  }

  /** `parseArrayContent`. */
  method ParseArrayContent(content: string) returns (items: seq<string>)
    ensures items == ScanItems(content, "", Out)
  {
    items := [];
    var current := "";
    var inString, stringChar := false, ' ';
    ghost var mode := Out;
    for i := 0 to |content|
      invariant mode == if inString then In(stringChar, i > 0 && content[i - 1] == '\\') else Out
      invariant inString ==> IsQuote(stringChar)
      invariant items + ScanItems(content[i..], current, mode) == ScanItems(content, "", Out)
    {
      var c := content[i];
      assert content[i..][0] == c && content[i..][1..] == content[i + 1..];
      ghost var mode' := NextMode(mode, c);
      if !inString && IsQuote(c) {
        inString, stringChar := true, c;
        current := current + [c];
      } else if inString && c == stringChar && (i == 0 || content[i - 1] != '\\') {
        inString := false;
        current := current + [c];
      } else if !inString && c == ',' {
        items := items + [StripQuotes(Trim(current))];
        current := "";
        continue;
      } else {
        current := current + [c];
      }
      mode := mode';
    }
    if Trim(current) != "" {
      items := items + [StripQuotes(Trim(current))];
    }
  }

  // ---------- the two end finders ----------

  /** The offset behind the parenthesis that brings `depth` to zero, in a text that starts at offset `at`. */
  function CloseAt(s: string, depth: int, at: nat): (r: Option<nat>)
    ensures r.Some? ==> at < r.value <= at + |s|
    decreases |s|
  {
    if s == "" then None
    else if s[0] == ')' && depth == 1 then Some(at + 1)
    else CloseAt(s[1..], depth + (if s[0] == '(' then 1 else if s[0] == ')' then -1 else 0), at + 1)
  }

  /** The offset behind the parenthesis that closes an object: no brace and no inner parenthesis open. */
  function ObjectEndAt(s: string, braces: int, parens: int, found: bool, at: nat): (r: Option<nat>)
    ensures r.Some? ==> at < r.value <= at + |s|
    decreases |s|
  {
    if s == "" then None
    else if s[0] == ')' && found && braces == 0 && parens == 0 then Some(at + 1)
    else
      ObjectEndAt(s[1..],
                  braces + (if s[0] == '{' then 1 else if s[0] == '}' then -1 else 0),
                  parens + (if !found then 0 else if s[0] == '(' then 1 else if s[0] == ')' then -1 else 0),
                  found || s[0] == '{', at + 1)
  }

  /** The first loop of `extractArrayWithModifiers`. */
  method FindArrayEnd(typeStr: string, startIndex: nat) returns (arrayEndIndex: int)
    requires startIndex <= |typeStr|
    ensures arrayEndIndex == match CloseAt(typeStr[startIndex..], 0, startIndex) case None => -1 case Some(end) => end
  {
    var depth := 0;
    arrayEndIndex := -1;
    for i := startIndex to |typeStr|
      invariant CloseAt(typeStr[i..], depth, i) == CloseAt(typeStr[startIndex..], 0, startIndex)
    {
      assert typeStr[i..][1..] == typeStr[i + 1..];
      if typeStr[i] == '(' {
        depth := depth + 1;
      } else if typeStr[i] == ')' {
        depth := depth - 1;
        if depth == 0 {
          arrayEndIndex := i + 1;
          return;
        }
      }
    }
  }

  /** The first loop of `extractObjectWithModifiers`. */
  method FindObjectEnd(typeStr: string, startIndex: nat) returns (objectEndIndex: int)
    requires startIndex <= |typeStr|
    ensures objectEndIndex == match ObjectEndAt(typeStr[startIndex..], 0, 0, false, startIndex) case None => -1 case Some(end) => end
  {
    var braceDepth, parenDepth, foundOpenBrace := 0, 0, false;
    objectEndIndex := -1;
    for i := startIndex to |typeStr|
      invariant ObjectEndAt(typeStr[i..], braceDepth, parenDepth, foundOpenBrace, i)
                == ObjectEndAt(typeStr[startIndex..], 0, 0, false, startIndex)
    {
      assert typeStr[i..][1..] == typeStr[i + 1..];
      if typeStr[i] == '{' {
        braceDepth := braceDepth + 1;
        foundOpenBrace := true;
      } else if typeStr[i] == '}' {
        braceDepth := braceDepth - 1;
      } else if typeStr[i] == '(' && foundOpenBrace {
        parenDepth := parenDepth + 1;
      } else if typeStr[i] == ')' && foundOpenBrace {
        if braceDepth == 0 && parenDepth == 0 {
          objectEndIndex := i + 1;
          return;
        }
        parenDepth := parenDepth - 1;
      }
    }
  }

  // ---------- regular expressions ----------

  /** `^(\w+)(\(.*\))?$`: the name and, if present, the arguments with their parentheses. */
  datatype Call = Call(name: string, args: Option<string>)

  function MatchCall(part: string): (r: Option<Call>)
  {
    var n := WordLength(part);
    var rest := part[n..];
    if n == 0 then None
    else if rest == "" then Some(Call(part, None))
    else if |rest| >= 2 && rest[0] == '(' && rest[|rest| - 1] == ')' && forall i | 0 <= i < |rest| :: !IsLineEnd(rest[i])
      then Some(Call(part[..n], Some(rest)))
    else None
  }

  /** `}\s*\)` at the front of `s`. */
  predicate ClosesObject(s: string) {
    s != "" && s[0] == '}' && SpaceLength(s[1..]) < |s| - 1 && s[1 + SpaceLength(s[1..])] == ')'
  }

  /** The greedy `[\s\S]*` before the last `}\s*\)`: its length. */
  function LastClose(s: string): (r: Option<nat>)
    ensures r.Some? ==> r.value < |s|
  {
    if s == "" then None
    else
      var r := LastClose(s[1..]);
      if r.Some? then Some(r.value + 1) else if ClosesObject(s) then Some(0) else None
  }

  /** The capture of `z\.object\(\s*\{([\s\S]*)\}\s*\)`, leftmost and greedy. */
  function ObjectContent(s: string): (r: Option<string>)
    ensures r.Some? ==> |r.value| + 10 <= |s|
  {
    if |s| < 10 then None
    else
      var open := 9 + SpaceLength(s[9..]);
      if Z_OBJECT <= s && open < |s| && s[open] == '{' && LastClose(s[open + 1..]).Some?
      then Some(s[open + 1..][..LastClose(s[open + 1..]).value])
      else ObjectContent(s[1..])
  }

  /** The trimmed capture of `z\.array\(\s*([\s\S]*)\s*\)$` for a string that starts with `z.array(`. */
  function ArrayContent(s: string): (r: Option<string>)
    requires Z_ARRAY <= s
    ensures r.Some? ==> |r.value| < |s|
  {
    if |s| >= 9 && s[|s| - 1] == ')' then Some(Trim(s[8..|s| - 1])) else None
  }

  // ---------- arguments ----------

  function ParseScalar(arg: string): Arg {
    if AllDigits(arg) then Num(ParseNat(arg))
    else if arg != "" && arg[0] == '"' && arg[|arg| - 1] == '"' then Str(Inner(arg))
    else Str(arg)
  }

  function ParseScalars(args: seq<string>): seq<Arg> {
    if args == [] then [] else [ParseScalar(Trim(args[0]))] + ParseScalars(args[1..])
  }

  /** `parseArguments`; `argsStr` has its parentheses. */
  function ParseArguments(argsStr: string): seq<Arg> {
    var inner := Trim(Inner(argsStr));
    if inner == "" then []
    else if inner[0] == '[' && inner[|inner| - 1] == ']' then [List(ScanItems(Inner(inner), "", Out))]
    else if AllDigits(inner) then [Num(ParseNat(inner))]
    else if inner[0] == '"' && inner[|inner| - 1] == '"' then [Str(Inner(inner))]
    else ParseScalars(SplitOn(inner, ','))
  }

  /** The value of a property of an object literal. */
  function ParseValue(v: string): Arg {
    if v != "" && v[0] == '[' && v[|v| - 1] == ']' then List(ScanItems(Inner(v), "", Out))
    else if v != "" && v[0] == '"' && v[|v| - 1] == '"' then Str(Inner(v))
    else if AllDigits(v) then Num(ParseNat(v))
    else Str(v)
  }

  /** One property of an object literal. */
  function ParseField(prop: string): Option<Field> {
    var colon := IndexOf(prop, ':');
    if colon.None? then None
    else
      var key := RemoveQuotes(Trim(prop[..colon.value]));
      var v := Trim(prop[colon.value + 1..]);
      Some(Field(key, ParseValue(v)))
  }

  /** Assignment to a key of a JavaScript object: a known key keeps its place. */
  function PutField(fs: seq<Field>, f: Field): seq<Field> {
    if fs == [] then [f] else if fs[0].key == f.key then [f] + fs[1..] else [fs[0]] + PutField(fs[1..], f)
  }

  function ParseFields(pieces: seq<string>): seq<Field> {
    if pieces == [] then []
    else
      var front, last := ParseFields(pieces[..|pieces| - 1]), ParseField(pieces[|pieces| - 1]);
      if last.None? then front else PutField(front, last.value)
  }

  /** `parseComplexArguments`, with the object literals of `.default()`. */
  function ParseComplexArguments(argsStr: string): seq<Arg> {
    var inner := Trim(Inner(argsStr));
    if inner == "" then []
    else if inner[0] == '{' && inner[|inner| - 1] == '}' then [Literal(ParseFields(Split(Trim(Inner(inner)))))]
    else ParseArguments(argsStr)
  }

  // ---------- modifiers ----------

  function ArrayModifier(part: string): Result<Modifier> {
    var call := MatchCall(part);
    if call.None? then Err(BadModifier)
    else if call.value.name !in ALLOWED_TYPES then Err(UnsupportedModifier)
    else Ok(Modifier(call.value.name, if call.value.args.None? then [] else ParseArguments(call.value.args.value)))
  }

  /** The modifiers behind an array: the parts between dots. */
  function ArrayModifiers(parts: seq<string>): Result<seq<Modifier>> {
    if parts == [] then Ok([])
    else
      var first := ArrayModifier(parts[0]);
      if first.Err? then Err(first.error)
      else
        var rest := ArrayModifiers(parts[1..]);
        if rest.Err? then rest else Ok([first.value] + rest.value)
  }

  /** The part up to the end of the array or object, and its modifiers if any follow. */
  datatype Extract = Extract(part: string, mods: Option<seq<Modifier>>)

  /** `extractArrayWithModifiers`. */
  function ExtractArray(s: string): (r: Result<Extract>)
    requires Z_ARRAY <= s
    ensures r.Ok? ==> |r.value.part| <= |s| && Z_ARRAY <= r.value.part
  {
    var end := CloseAt(s[7..], 0, 7);
    if end.None? || end.value >= |s| || s[end.value] != '.' then Ok(Extract(s, None))
    else
      var mods := ArrayModifiers(SplitOn(s[end.value + 1..], '.'));
      if mods.Err? then Err(mods.error) else Ok(Extract(s[..end.value], Some(mods.value)))
  }

  /** The text of the arguments behind a name of length `n`, with their parentheses, and the text behind them. */
  datatype Taken = Taken(args: Option<string>, rest: string)

  function TakeArgs(s: string, n: nat): (t: Taken)
    requires n <= |s|
    ensures |t.rest| <= |s| - n
  {
    var close := if n < |s| && s[n] == '(' then CloseAt(s[n..], 0, n) else None;
    if close.None? then Taken(None, s[n..]) else Taken(Some(s[n..close.value]), s[close.value..])
  }

  function ArgsIn(t: Taken): seq<Arg> {
    if t.args.None? then [] else ParseComplexArguments(t.args.value)
  }

  function SkipDot(s: string): (r: string)
    ensures |r| <= |s|
  {
    if s != "" && s[0] == '.' then s[1..] else s
  }

  /** The modifier loop of `extractObjectWithModifiers` over the text behind the first dot. */
  function ObjectModifiers(s: string): Result<seq<Modifier>>
    decreases |s|
  {
    var n := WordLength(s);
    if n == 0 then Ok([])
    else if s[..n] !in ALLOWED_TYPES then Err(UnsupportedModifier)
    else
      var t := TakeArgs(s, n);
      var more := ObjectModifiers(SkipDot(t.rest));
      if more.Err? then more else Ok([Modifier(s[..n], ArgsIn(t))] + more.value)
  }

  /** `extractObjectWithModifiers`. */
  function ExtractObject(s: string): (r: Result<Extract>)
    requires Z_OBJECT <= s
    ensures r.Ok? ==> |r.value.part| <= |s|
  {
    var end := ObjectEndAt(s[8..], 0, 0, false, 8);
    if end.None? || end.value >= |s| || s[end.value] != '.' then Ok(Extract(s, None))
    else
      var mods := ObjectModifiers(s[end.value + 1..]);
      if mods.Err? then Err(mods.error)
      else if mods.value == [] then Ok(Extract(s, None))
      else Ok(Extract(s[..end.value], Some(mods.value)))
  }

  // ---------- base types ----------

  /** The modifiers of a base type: any word is taken. */
  function BaseModifiers(parts: seq<string>): Result<seq<Modifier>> {
    if parts == [] then Ok([])
    else
      var call := MatchCall(Trim(parts[0]));
      if call.None? then Err(BadModifier)
      else
        var rest := BaseModifiers(parts[1..]);
        if rest.Err? then rest
        else Ok([Modifier(call.value.name, if call.value.args.None? then [] else ParseArguments(call.value.args.value))] + rest.value)
  }

  function ParseBase(s: string): Result<Schema> {
    var parts := SplitOn(s, '.');
    if Trim(parts[0]) != "z" then Err(NotZod)
    else if |parts| == 1 then Ok(Base("", [], None))
    else
      var call := MatchCall(Trim(parts[1]));
      if call.None? then Err(BadBase)
      else
        var mods := BaseModifiers(parts[2..]);
        if mods.Err? then Err(mods.error)
        else Ok(Base(call.value.name, mods.value, if call.value.args.None? then None else Some(ParseArguments(call.value.args.value))))
  }

  // ---------- the recursive descent ----------

  /** `validateTypeInfo`. */
  function Validate(s: Schema): Option<Error>
    decreases s
  {
    match s
    case Nested(props, _) => ValidateAll(props)
    case ArrayOfObjects(props, _) => ValidateAll(props)
    case SimpleArray(inner, _) => Validate(inner)
    case Base(base, modifiers, _) =>
      if base !in ALLOWED_TYPES then Some(UnsupportedType)
      else if forall m | m in modifiers :: m.name in ALLOWED_TYPES then None else Some(UnsupportedModifier)
  }

  function ValidateAll(props: seq<Prop>): Option<Error>
    decreases props
  {
    if props == [] then None
    else
      var e := Validate(props[0].schema);
      if e.Some? then e else ValidateAll(props[1..])
  }

  function Put(props: seq<Prop>, p: Prop): seq<Prop> {
    if props == [] then [p] else if props[0].key == p.key then [p] + props[1..] else [props[0]] + Put(props[1..], p)
  }

  /** `parseZodType`. */
  function ParseZodType(s: string): Result<Schema>
    decreases |s|, 1
  {
    if Z_OBJECT <= s then
      var ext := ExtractObject(s);
      if ext.Err? then Err(ext.error)
      else
        var content := ObjectContent(ext.value.part);
        if content.None? then Err(BadObject)
        else
          var props := ParseProps(Split(content.value), |content.value|);
          if props.Err? then Err(props.error) else Ok(Nested(props.value, ext.value.mods))
    else if Z_ARRAY <= s then
      var ext := ExtractArray(s);
      if ext.Err? then Err(ext.error)
      else
        var arr := ParseArray(ext.value.part);
        if arr.Err? then arr else Ok(arr.value.(mods := ext.value.mods))
    else ParseBase(s)
  }

  /** `parseArray`. */
  function ParseArray(s: string): (r: Result<Schema>)
    requires Z_ARRAY <= s
    ensures r.Ok? ==> r.value.ArrayOfObjects? || r.value.SimpleArray?
    decreases |s|, 0
  {
    var content := ArrayContent(s);
    if content.None? then Err(BadArray)
    else if Z_OBJECT <= content.value then
      var inside := ObjectContent(content.value);
      if inside.None? then Err(BadObject)
      else
        var props := ParseProps(Split(inside.value), |inside.value|);
        if props.Err? then Err(props.error)
        else if ValidateAll(props.value).Some? then Err(ValidateAll(props.value).value)
        else Ok(ArrayOfObjects(props.value, None))
    else
      var inner := ParseZodType(content.value);
      if inner.Err? then inner else Ok(SimpleArray(inner.value, None))
  }

  /** The loop of `parseObjectProperties` over pieces no longer than `bound`. */
  function ParseProps(pieces: seq<string>, bound: nat): Result<seq<Prop>>
    requires forall p | p in pieces :: |p| <= bound
    decreases bound, |pieces|
  {
    if pieces == [] then Ok([])
    else
      var front := ParseProps(pieces[..|pieces| - 1], bound);
      if front.Err? then front
      else
        AddProperty(front.value, pieces[|pieces| - 1])
  }

  /** `parseProperty` and the assignment behind it. */
  function AddProperty(props: seq<Prop>, piece: string): Result<seq<Prop>>
    decreases |piece|, 0
  {
    var colon := IndexOf(piece, ':');
    if colon.None? then Ok(props)
    else
      var key := RemoveQuotes(Trim(piece[..colon.value]));
      var value := ParseZodType(Trim(piece[colon.value + 1..]));
      if value.Err? then Err(value.error)
      else Ok(if key == "" then props else Put(props, Prop(key, value.value)))
  }

  /** `parseSchemaStructure`, on the cleaned text. */
  function ParseSchema(s: string): Result<seq<Prop>> {
    if !(Z_OBJECT <= s) then Err(NotAnObject)
    else
      var content := ObjectContent(s);
      if content.None? then Err(BadObject) else ParseProps(Split(content.value), |content.value|)
  }

  // ---------- the loops over modifiers and properties ----------

  /** What a loop returns that has `done` and still finds `rest`. */
  function Behind(done: seq<Modifier>, rest: Result<seq<Modifier>>): Result<seq<Modifier>> {
    if rest.Err? then rest else Ok(done + rest.value)
  }

  lemma BehindNothing(rest: Result<seq<Modifier>>)
    ensures Behind([], rest) == rest
  {
    if rest.Ok? { assert [] + rest.value == rest.value; }
  }

  lemma BehindOne(done: seq<Modifier>, m: Modifier, rest: Result<seq<Modifier>>)
    ensures Behind(done, if rest.Err? then rest else Ok([m] + rest.value)) == Behind(done + [m], rest)
  {
    if rest.Ok? {
      assert done + ([m] + rest.value) == (done + [m]) + rest.value;
    }
  }

  /** The second loop of `extractArrayWithModifiers`. */
  method ReadArrayModifiers(modifierParts: seq<string>) returns (r: Result<seq<Modifier>>)
    ensures r == ArrayModifiers(modifierParts)
  {
    var modifiers: seq<Modifier> := [];
    assert modifierParts[0..] == modifierParts;
    BehindNothing(ArrayModifiers(modifierParts));
    for i := 0 to |modifierParts|
      invariant Behind(modifiers, ArrayModifiers(modifierParts[i..])) == ArrayModifiers(modifierParts)
    {
      ArrayModifiersNext(modifierParts, i);
      var modifier := ArrayModifier(modifierParts[i]);
      if modifier.Err? { return Err(modifier.error); }
      BehindOne(modifiers, modifier.value, ArrayModifiers(modifierParts[i + 1..]));
      modifiers := modifiers + [modifier.value];
    }
    BehindEnd(modifiers);
    r := Ok(modifiers);
  }

  lemma ArrayModifiersNext(parts: seq<string>, i: nat)
    requires i < |parts|
    ensures var first, rest := ArrayModifier(parts[i]), ArrayModifiers(parts[i + 1..]);
            ArrayModifiers(parts[i..])
            == if first.Err? then Err(first.error) else if rest.Err? then rest else Ok([first.value] + rest.value)
  {
    assert parts[i..][0] == parts[i] && parts[i..][1..] == parts[i + 1..];
  }

  lemma BehindEnd(done: seq<Modifier>)
    ensures Behind(done, Ok([])) == Ok(done)
  {
    assert done + [] == done;
  }

  lemma {:induction false} CloseShift(s: string, depth: int, at: nat, shift: nat)
    ensures CloseAt(s, depth, at + shift)
            == match CloseAt(s, depth, at) case None => None case Some(end) => Some(end + shift)
    decreases |s|
  {
    if s != "" && !(s[0] == ')' && depth == 1) {
      CloseShift(s[1..], depth + (if s[0] == '(' then 1 else if s[0] == ')' then -1 else 0), at + 1, shift);
    }
  }

  /** Arguments taken from a rest of the text, seen from the whole text. */
  lemma TakenFrom(s: string, i: nat, n: nat)
    requires i + n <= |s|
    ensures var close := if i + n < |s| && s[i + n] == '(' then CloseAt(s[i + n..], 0, i + n) else None;
            TakeArgs(s[i..], n) == if close.None? then Taken(None, s[i + n..]) else Taken(Some(s[i + n..close.value]), s[close.value..])
  {
    assert s[i..][n..] == s[i + n..];
    CloseShift(s[i + n..], 0, n, i);
    var close := CloseAt(s[i + n..], 0, n);
    if close.Some? {
      assert s[i..][n..close.value] == s[i + n..i + close.value];
      assert s[i..][close.value..] == s[i + close.value..];
    }
  }

  /** The argument part of one turn: the text of the arguments behind the name at `i`, and the offset behind them. */
  method ReadArguments(s: string, i: nat, n: nat) returns (argsStr: Option<string>, next: nat)
    requires i + n <= |s|
    ensures i + n <= next <= |s| && TakeArgs(s[i..], n) == Taken(argsStr, s[next..])
  {
    TakenFrom(s, i, n);
    argsStr, next := None, i + n;
    if next < |s| && s[next] == '(' {
      var end := FindArrayEnd(s, next);
      if end != -1 {
        argsStr, next := Some(s[next..end]), end;
      }
    }
  }

  /** One turn of the loop. */
  lemma ObjectModifiersTurn(s: string, n: nat, args: seq<Arg>, rest: Result<seq<Modifier>>)
    requires WordLength(s) == n > 0 && s[..n] in ALLOWED_TYPES
    requires args == ArgsIn(TakeArgs(s, n)) && rest == ObjectModifiers(SkipDot(TakeArgs(s, n).rest))
    ensures ObjectModifiers(s) == if rest.Err? then rest else Ok([Modifier(s[..n], args)] + rest.value)
  {
  }

  lemma NoMoreModifiers(s: string)
    ensures WordLength(s) == 0 ==> ObjectModifiers(s) == Ok([])
    ensures WordLength(s) > 0 && s[..WordLength(s)] !in ALLOWED_TYPES ==> ObjectModifiers(s) == Err(UnsupportedModifier)
  {
  }

  lemma SliceOfRest(s: string, i: nat, n: nat)
    requires i + n <= |s|
    ensures s[i..][..n] == s[i..i + n]
    ensures SkipDot(s[i + n..]) == if i + n < |s| && s[i + n] == '.' then s[i + n + 1..] else s[i + n..]
  {
  }

  /** The modifier loop of `extractObjectWithModifiers`, over a text that starts with a dot. */
  method ReadObjectModifiers(remainingPart: string) returns (r: Result<seq<Modifier>>)
    requires remainingPart != ""
    ensures r == ObjectModifiers(remainingPart[1..])
  {
    var modifiers: seq<Modifier> := [];
    var i := 1;
    BehindNothing(ObjectModifiers(remainingPart[1..]));
    while i < |remainingPart|
      invariant 1 <= i <= |remainingPart|
      invariant Behind(modifiers, ObjectModifiers(remainingPart[i..])) == ObjectModifiers(remainingPart[1..])
    {
      var n := WordLength(remainingPart[i..]);
      NoMoreModifiers(remainingPart[i..]);
      if n == 0 { break; }
      SliceOfRest(remainingPart, i, n);
      var modName := remainingPart[i..i + n];
      var argsStr, next := ReadArguments(remainingPart, i, n);
      var modArgs := if argsStr.None? then [] else ParseComplexArguments(argsStr.value);
      if modName !in ALLOWED_TYPES { return Err(UnsupportedModifier); }
      ghost var rest := ObjectModifiers(SkipDot(remainingPart[next..]));
      ObjectModifiersTurn(remainingPart[i..], n, modArgs, rest);
      BehindOne(modifiers, Modifier(modName, modArgs), rest);
      SliceOfRest(remainingPart, next, 0);
      modifiers := modifiers + [Modifier(modName, modArgs)];
      i := if next < |remainingPart| && remainingPart[next] == '.' then next + 1 else next;
    }
    NoMoreModifiers(remainingPart[i..]);
    BehindEnd(modifiers);
    r := Ok(modifiers);
  }

  method ExtractArrayWithModifiers(typeStr: string) returns (r: Result<Extract>)
    requires Z_ARRAY <= typeStr
    ensures r == ExtractArray(typeStr)
  {
    var arrayEndIndex := FindArrayEnd(typeStr, 7);
    if arrayEndIndex == -1 { return Ok(Extract(typeStr, None)); }
    var remainingPart := typeStr[arrayEndIndex..];
    if remainingPart == "" || remainingPart[0] != '.' { return Ok(Extract(typeStr, None)); }
    assert remainingPart[1..] == typeStr[arrayEndIndex + 1..];
    var modifiers := ReadArrayModifiers(SplitOn(remainingPart[1..], '.'));
    r := if modifiers.Err? then Err(modifiers.error) else Ok(Extract(typeStr[..arrayEndIndex], Some(modifiers.value)));
  }

  method ExtractObjectWithModifiers(typeStr: string) returns (r: Result<Extract>)
    requires Z_OBJECT <= typeStr
    ensures r == ExtractObject(typeStr)
  {
    var objectEndIndex := FindObjectEnd(typeStr, 8);
    if objectEndIndex == -1 { return Ok(Extract(typeStr, None)); }
    var remainingPart := typeStr[objectEndIndex..];
    if remainingPart == "" || remainingPart[0] != '.' { return Ok(Extract(typeStr, None)); }
    assert remainingPart[1..] == typeStr[objectEndIndex + 1..];
    var modifiers := ReadObjectModifiers(remainingPart);
    r := if modifiers.Err? then Err(modifiers.error)
         else if modifiers.value == [] then Ok(Extract(typeStr, None))
         else Ok(Extract(typeStr[..objectEndIndex], Some(modifiers.value)));
  }

  /** The first property that does not parse decides. */
  lemma {:induction false} FirstErrorStays(pieces: seq<string>, n: nat, bound: nat)
    requires n <= |pieces| && forall p | p in pieces :: |p| <= bound
    requires ParseProps(pieces[..n], bound).Err?
    ensures ParseProps(pieces, bound) == ParseProps(pieces[..n], bound)
    decreases |pieces|
  {
    if n == |pieces| {
      assert pieces[..n] == pieces;
    } else {
      var front := pieces[..|pieces| - 1];
      assert front[..n] == pieces[..n];
      FirstErrorStays(front, n, bound);
    }
  }

  lemma PropsNext(pieces: seq<string>, i: nat, bound: nat)
    requires i < |pieces| && forall p | p in pieces :: |p| <= bound
    requires ParseProps(pieces[..i], bound).Ok?
    ensures ParseProps(pieces[..i + 1], bound) == AddProperty(ParseProps(pieces[..i], bound).value, pieces[i])
  {
    assert pieces[..i + 1][..i] == pieces[..i];
  }

  /** `parseProperty` and the assignment behind it. */
  method ReadProperty(properties: seq<Prop>, prop: string) returns (r: Result<seq<Prop>>)
    ensures r == AddProperty(properties, prop)
  {
    var colonIndex := IndexOf(prop, ':');
    if colonIndex.None? { return Ok(properties); }
    var key := RemoveQuotes(Trim(prop[..colonIndex.value]));
    var value := ParseZodType(Trim(prop[colonIndex.value + 1..]));
    if value.Err? { return Err(value.error); }
    r := Ok(if key != "" then Put(properties, Prop(key, value.value)) else properties);
  }

  /** `parseObjectProperties`. */
  method ParseObjectProperties(content: string) returns (r: Result<seq<Prop>>)
    ensures r == ParseProps(Split(content), |content|)
  {
    var props := SplitProperties(content);
    PiecesAreShort(content, "", 0, Out);
    var properties: seq<Prop> := [];
    for i := 0 to |props|
      invariant ParseProps(props[..i], |content|) == Ok(properties)
    {
      PropsNext(props, i, |content|);
      var added := ReadProperty(properties, props[i]);
      if added.Err? {
        FirstErrorStays(props, i + 1, |content|);
        return added;
      }
      properties := added.value;
    }
    assert props[..|props|] == props;
    r := Ok(properties);
  }
}
