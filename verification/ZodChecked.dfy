/**
  What holds of every type the parser returns, whatever the text: modifiers behind arrays and
  objects and everything inside an array of objects are on the list of allowed names.
 */
module ZodChecked {
  import opened Common
  import opened ZodText
  import opened ZodParser

  predicate AllAllowed(mods: seq<Modifier>) {
    forall m | m in mods :: m.name in ALLOWED_TYPES
  }

  predicate AllowedTail(mods: Option<seq<Modifier>>) {
    mods.Some? ==> AllAllowed(mods.value)
  }

  function KeysOf(props: seq<Prop>): set<string> {
    if props == [] then {} else {props[0].key} + KeysOf(props[1..])
  }

  /** Keys are distinct and not empty. */
  predicate GoodKeys(props: seq<Prop>) {
    props == [] || (props[0].key != "" && props[0].key !in KeysOf(props[1..]) && GoodKeys(props[1..]))
  }

  predicate Checked(s: Schema)
    decreases s
  {
    match s
    case Base(_, _, _) => true
    case Nested(props, mods) => CheckedAll(props) && GoodKeys(props) && AllowedTail(mods)
    case ArrayOfObjects(props, mods) => CheckedAll(props) && GoodKeys(props) && ValidateAll(props) == None && AllowedTail(mods)
    case SimpleArray(inner, mods) => Checked(inner) && !inner.Nested? && AllowedTail(mods)
  }

  predicate CheckedAll(props: seq<Prop>)
    decreases props
  {
    props == [] || (Checked(props[0].schema) && CheckedAll(props[1..]))
  }

  lemma {:induction false} ArrayModifiersAllowed(parts: seq<string>)
    ensures ArrayModifiers(parts).Ok? ==> AllAllowed(ArrayModifiers(parts).value)
  {
    if parts != [] {
      ArrayModifiersAllowed(parts[1..]);
    }
  }

  lemma {:induction false} ObjectModifiersAllowed(s: string)
    ensures ObjectModifiers(s).Ok? ==> AllAllowed(ObjectModifiers(s).value)
    decreases |s|
  {
    var n := WordLength(s);
    if n > 0 && s[..n] in ALLOWED_TYPES {
      ObjectModifiersAllowed(SkipDot(TakeArgs(s, n).rest));
    }
  }

  lemma ExtractedAllowed(s: string)
    ensures Z_ARRAY <= s && ExtractArray(s).Ok? ==> AllowedTail(ExtractArray(s).value.mods)
    ensures Z_OBJECT <= s && ExtractObject(s).Ok? ==> AllowedTail(ExtractObject(s).value.mods)
  {
    if Z_ARRAY <= s {
      var end := CloseAt(s[7..], 0, 7);
      if end.Some? && end.value < |s| {
        ArrayModifiersAllowed(SplitOn(s[end.value + 1..], '.'));
      }
    }
    if Z_OBJECT <= s {
      var end := ObjectEndAt(s[8..], 0, 0, false, 8);
      if end.Some? && end.value < |s| {
        ObjectModifiersAllowed(s[end.value + 1..]);
      }
    }
  }

  lemma {:induction false} PutChecked(props: seq<Prop>, p: Prop)
    requires CheckedAll(props) && Checked(p.schema)
    ensures CheckedAll(Put(props, p))
  {
    if props == [] {
      assert [p][1..] == [];
    } else if props[0].key == p.key {
      assert ([p] + props[1..])[1..] == props[1..];
    } else {
      PutChecked(props[1..], p);
      assert ([props[0]] + Put(props[1..], p))[1..] == Put(props[1..], p);
    }
  }

  /** Storing under a key keeps the other keys, each once. */
  lemma {:induction false} PutKeys(props: seq<Prop>, p: Prop)
    requires GoodKeys(props) && p.key != ""
    ensures GoodKeys(Put(props, p)) && KeysOf(Put(props, p)) == KeysOf(props) + {p.key}
  {
    if props == [] {
      assert [p][1..] == [];
    } else if props[0].key == p.key {
      assert ([p] + props[1..])[1..] == props[1..];
    } else {
      PutKeys(props[1..], p);
      assert ([props[0]] + Put(props[1..], p))[1..] == Put(props[1..], p);
    }
  }

  ghost predicate CheckedType(r: Result<Schema>) {
    r.Ok? ==> Checked(r.value)
  }

  ghost predicate CheckedProps(r: Result<seq<Prop>>) {
    r.Ok? ==> CheckedAll(r.value) && GoodKeys(r.value)
  }

  /** Whatever the text, a type that is returned is checked. */
  lemma {:induction false} ParsedIsChecked(s: string)
    ensures CheckedType(ParseZodType(s))
    decreases |s|, 1
  {
    ExtractedAllowed(s);
    if Z_OBJECT <= s {
      var ext := ExtractObject(s);
      if ext.Ok? && ObjectContent(ext.value.part).Some? {
        var content := ObjectContent(ext.value.part).value;
        ParsedPropsAreChecked(Split(content), |content|);
      }
    } else if Z_ARRAY <= s {
      var ext := ExtractArray(s);
      if ext.Ok? {
        ParsedArrayIsChecked(ext.value.part);
      }
    }
  }

  lemma {:induction false} ParsedArrayIsChecked(s: string)
    requires Z_ARRAY <= s
    ensures CheckedType(ParseArray(s)) && (ParseArray(s).Ok? ==> ParseArray(s).value.mods == None)
    decreases |s|, 0
  {
    var content := ArrayContent(s);
    if content.Some? {
      if Z_OBJECT <= content.value {
        var inside := ObjectContent(content.value);
        if inside.Some? {
          var props := ParseProps(Split(inside.value), |inside.value|);
          ParsedPropsAreChecked(Split(inside.value), |inside.value|);
          assert ParseArray(s).Ok? ==> ParseArray(s) == Ok(ArrayOfObjects(props.value, None)) && ValidateAll(props.value) == None;
        }
      } else {
        var inner := ParseZodType(content.value);
        ParsedIsChecked(content.value);
        ParsedIsNoObject(content.value);
        assert ParseArray(s) == if inner.Err? then inner else Ok(SimpleArray(inner.value, None));
      }
    }
  }

  /** Only text that begins an object is read as one. */
  lemma ParsedIsNoObject(s: string)
    requires !(Z_OBJECT <= s)
    ensures ParseZodType(s).Ok? ==> !ParseZodType(s).value.Nested?
  {
  }

  lemma {:induction false} ParsedPropsAreChecked(pieces: seq<string>, bound: nat)
    requires forall p | p in pieces :: |p| <= bound
    ensures CheckedProps(ParseProps(pieces, bound))
    decreases bound, |pieces|
  {
    if pieces != [] {
      var n := |pieces| - 1;
      ParsedPropsAreChecked(pieces[..n], bound);
      var front := ParseProps(pieces[..n], bound);
      var colon := IndexOf(pieces[n], ':');
      if front.Ok? && colon.Some? {
        var key, text := RemoveQuotes(Trim(pieces[n][..colon.value])), Trim(pieces[n][colon.value + 1..]);
        ParsedIsChecked(text);
        var value := ParseZodType(text);
        if value.Ok? && key != "" {
          PutChecked(front.value, Prop(key, value.value));
          PutKeys(front.value, Prop(key, value.value));
        }
      }
    }
  }

  /** So for whole schemas. */
  lemma ParsedSchemaIsChecked(s: string)
    ensures CheckedProps(ParseSchema(s))
  {
    if Z_OBJECT <= s && ObjectContent(s).Some? {
      var content := ObjectContent(s).value;
      ParsedPropsAreChecked(Split(content), |content|);
    }
  }

  // ---------- which types are valid ----------

  /** The names a type or a modifier may have. */
  lemma AllowedNames(name: string)
    ensures name in ALLOWED_TYPES <==>
              || name == "string" || name == "number" || name == "int" || name == "boolean" || name == "date"
              || name == "object" || name == "array" || name == "enum" || name == "optional"
              || name == "max" || name == "min" || name == "describe" || name == "default"
  {
  }

  /** Every base type and every modifier of one, at any depth, is on the list; modifiers of objects and arrays do not matter here. */
  predicate Valid(s: Schema)
    decreases s
  {
    match s
    case Base(base, modifiers, _) => base in ALLOWED_TYPES && forall i | 0 <= i < |modifiers| :: modifiers[i].name in ALLOWED_TYPES
    case Nested(props, _) => forall i | 0 <= i < |props| :: Valid(props[i].schema)
    case ArrayOfObjects(props, _) => forall i | 0 <= i < |props| :: Valid(props[i].schema)
    case SimpleArray(inner, _) => Valid(inner)
  }

  lemma {:induction false} ValidatesExactly(s: Schema)
    ensures Validate(s) == None <==> Valid(s)
    decreases s
  {
    match s
    case Nested(props, _) => ValidatesAllExactly(props);
    case ArrayOfObjects(props, _) => ValidatesAllExactly(props);
    case SimpleArray(inner, _) => ValidatesExactly(inner);
    case Base(_, modifiers, _) =>
      if forall i | 0 <= i < |modifiers| :: modifiers[i].name in ALLOWED_TYPES {
        assert forall m | m in modifiers :: m.name in ALLOWED_TYPES;
      }
  }

  lemma {:induction false} ValidatesAllExactly(props: seq<Prop>)
    ensures ValidateAll(props) == None <==> forall i | 0 <= i < |props| :: Valid(props[i].schema)
    decreases props
  {
    if props != [] {
      ValidatesExactly(props[0].schema);
      ValidatesAllExactly(props[1..]);
      assert forall i | 0 <= i < |props| :: i == 0 || props[i] == props[1..][i - 1];
    }
  }
}
