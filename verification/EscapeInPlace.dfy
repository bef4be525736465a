/**
  `iterateEscapesJSONParse` of packages/components/src/utils.ts as the code runs it: the fields
  of an object, and of the objects in them, are overwritten in place.
 */
module EscapeInPlace {
  import opened EscapeCodec

  /** A field's value; `Ref` is an object or an array. */
  datatype Cell = Text(s: string) | Ref(o: Node) | Scalar

  /** An object as a tree of its own: no part of it is shared and none contains itself. */
  class Node {
    const keys: seq<string>
    var cells: seq<Cell>
    ghost const repr: set<Node>

    /** An object around objects that share nothing. */
    constructor (keys: seq<string>, cells: seq<Cell>)
      requires |keys| == |cells| && forall i | 0 <= i < |cells| && cells[i].Ref? :: cells[i].o.Valid()
      requires forall i, j | 0 <= i < j < |cells| && cells[i].Ref? && cells[j].Ref? :: cells[i].o.repr !! cells[j].o.repr
      ensures Valid() && this.keys == keys && this.cells == cells && fresh(this)
    {
      this.keys, this.cells := keys, cells;
      repr := {this} + set i, o | 0 <= i < |cells| && cells[i].Ref? && o in cells[i].o.repr :: o;
    }

    ghost predicate Valid()
      reads this, repr
      decreases repr
    {
      && this in repr && |cells| == |keys|
      && (forall i | 0 <= i < |cells| && cells[i].Ref? :: Within(cells[i].o) && cells[i].o.Valid())
      && (forall i, j | 0 <= i < j < |cells| && cells[i].Ref? && cells[j].Ref? :: cells[i].o.repr !! cells[j].o.repr)
    }

    ghost predicate Within(o: Node) {
      o in repr && this !in o.repr && o.repr <= repr && o.repr < repr
    }

    /** The fields from the i-th one on, as a value. */
    ghost function Fields(i: nat): seq<Field>
      requires Valid() && i <= |cells|
      reads this, repr
      decreases repr, |cells| - i
    {
      if i == |cells| then [] else [Field(keys[i], Value(i))] + Fields(i + 1)
    }

    ghost function Value(i: nat): Json
      requires Valid() && i < |cells|
      reads this, repr
      decreases repr, 0
    {
      match cells[i]
      case Text(s) => Str(s)
      case Ref(o) => Object(o.Fields(0))
      case Scalar => Other
    }

    lemma {:induction false} FieldsAt(i: nat)
      requires Valid() && i <= |cells|
      ensures |Fields(i)| == |cells| - i
      ensures forall j | i <= j < |cells| :: Fields(i)[j - i] == Field(keys[j], Value(j))
      decreases |cells| - i
    {
      if i < |cells| {
        FieldsAt(i + 1);
      }
    }

    /** Fields whose values are the handled ones of `before` are the handled fields. */
    lemma {:induction false} FieldsHandled(before: seq<Field>, reverse: bool, i: nat)
      requires Valid() && i <= |cells| == |before|
      requires forall j | i <= j < |cells| :: before[j].key == keys[j] && Value(j) == HandleValue(before[j].value, reverse)
      ensures Fields(i) == HandleFields(before[i..], reverse)
      decreases |cells| - i
    {
      if i < |cells| {
        FieldsHandled(before, reverse, i + 1);
        assert before[i..][1..] == before[i + 1..];
      }
    }

    /** The fields before the i-th are handled, the others are as they were. */
    ghost predicate Handled(before: seq<Field>, reverse: bool, i: nat)
      reads this, repr
    {
      && Valid() && i <= |cells| == |before|
      && (forall j | 0 <= j < |cells| :: before[j].key == keys[j])
      && (forall j | 0 <= j < i :: Value(j) == HandleValue(before[j].value, reverse))
      && (forall j | i <= j < |cells| :: Value(j) == before[j].value)
    }

    method HandleText(i: nat, ghost before: seq<Field>, reverse: bool)
      requires Handled(before, reverse, i) && i < |cells| && cells[i].Text?
      modifies this
      ensures Handled(before, reverse, i + 1)
    {
      var t := HandleEscapesJSONParse(cells[i].s, reverse);
      cells := cells[i := Text(t)];
    }

    method HandleObject(i: nat, ghost before: seq<Field>, reverse: bool)
      requires Handled(before, reverse, i) && i < |cells| && cells[i].Ref?
      modifies cells[i].o.repr
      ensures Handled(before, reverse, i + 1)
      decreases repr, 0
    {
      var o := cells[i].o;
      assert forall k | 0 <= k < |cells| && cells[k].Ref? && k != i :: cells[k].o.repr !! o.repr;
      assert o.Fields(0) == before[i].value.fields by { assert Value(i) == before[i].value; }
      o.Iterate(reverse);
      assert cells == old(cells);
      forall k | 0 <= k < |cells| && cells[k].Ref? && k != i
        ensures cells[k].o.Valid() && cells[k].o.Fields(0) == old(cells[k].o.Fields(0))
      {
        var p := cells[k].o;
        assert old(p.Valid()) && p in p.repr && p.repr !! o.repr;
      }
    }

    /** `iterateEscapesJSONParse`. */
    method Iterate(reverse: bool)
      requires Valid()
      modifies repr
      ensures Valid() && Fields(0) == HandleFields(old(Fields(0)), reverse)
      decreases repr, 1
    {
      ghost var before := Fields(0);
      FieldsAt(0);
      for i := 0 to |cells|
        invariant |cells| == |keys| && Handled(before, reverse, i)
      {
        match cells[i]
        case Text(_) => HandleText(i, before, reverse);
        case Ref(_) => HandleObject(i, before, reverse);
        case Scalar =>
      }
      FieldsHandled(before, reverse, 0);
      assert before[0..] == before;
    }
  }

  /** Escaping in place and putting the characters back restores an object exactly if none of its strings holds a token. */
  method EscapeAndRestore(o: Node)
    requires o.Valid()
    modifies o.repr
    ensures o.Valid()
    ensures o.Fields(0) == old(o.Fields(0)) <==> FieldsTokenFree(old(o.Fields(0)))
  {
    o.Iterate(false);
    o.Iterate(true);
    FieldsRoundTrip(old(o.Fields(0)));
  }
}
