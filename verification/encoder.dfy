/** Encode: a record to its query string, field by field in declaration
    order. */
module Encoder {
  import opened Scalars
  import opened Fields
  import opened QueryText

  /** One `(key, text)` pair per scalar, in order. */
  function EmitEach(key: string, k: Kind, vs: seq<Scalar>, formatFloat: FloatFormatter): (ps: seq<Pair>)
    ensures |ps| == |vs|
    ensures forall j :: 0 <= j < |vs| ==> ps[j] == (key, Format(vs[j], k, formatFloat))
  {
    if |vs| == 0 then [] else [(key, Format(vs[0], k, formatFloat))] + EmitEach(key, k, vs[1..], formatFloat)
  }

  /** The pairs one field contributes: exactly one for a scalar field,
      whatever its value (zero values are not skipped); one per element for
      a slice field, in element order, so none for an empty slice. */
  function FieldPairs(f: Field, formatFloat: FloatFormatter): (ps: seq<Pair>)
    ensures f.value.One? ==> |ps| == 1
    ensures |ps| == |Elements(f)|
    ensures forall j :: 0 <= j < |ps| ==> ps[j] == (Key(f.name), Format(Elements(f)[j], f.kind, formatFloat))
  {
    match f.value
    case One(v) => [(Key(f.name), Format(v, f.kind, formatFloat))]
    case Many(vs) => EmitEach(Key(f.name), f.kind, vs, formatFloat)
  }

  /** The pairs of a whole record: each field's pairs, fields in declaration
      order (keys are not sorted). */
  function Pairs(r: Record, formatFloat: FloatFormatter): (ps: seq<Pair>)
    ensures |ps| == ElementCount(r)
  {
    if |r| == 0 then [] else FieldPairs(r[0], formatFloat) + Pairs(r[1..], formatFloat)
  }

  /** How many scalars a record holds: one per scalar field, one per
      element of each slice field. */
  function ElementCount(r: Record): nat {
    if |r| == 0 then 0 else |Elements(r[0])| + ElementCount(r[1..])
  }

  /** The query string of a record: empty exactly when no field contributes
      a pair (every field an empty slice, or no fields at all), otherwise
      starting with `?`. Encoding cannot fail over the supported kinds. */
  function Encode(r: Record, formatFloat: FloatFormatter): (s: string)
    ensures s == "" <==> forall i :: 0 <= i < |r| ==> Elements(r[i]) == []
    ensures s != "" ==> s[0] == '?'
    ensures (exists i :: 0 <= i < |r| && r[i].value.One?) ==> s != ""
  {
    PairsEmpty(r, formatFloat);
    Render(Pairs(r, formatFloat))
  }

  /** A record yields no pairs exactly when every field is an empty slice. */
  lemma {:induction false} PairsEmpty(r: Record, formatFloat: FloatFormatter)
    ensures Pairs(r, formatFloat) == [] <==> forall i :: 0 <= i < |r| ==> Elements(r[i]) == []
  {
    if |r| > 0 {
      PairsEmpty(r[1..], formatFloat);
      assert forall i :: 1 <= i < |r| ==> r[1..][i - 1] == r[i];
    }
  }

  /** The texts of a field's scalars, in order. */
  function Texts(f: Field, formatFloat: FloatFormatter): seq<string> {
    seq(|Elements(f)|, j requires 0 <= j < |Elements(f)| => Format(Elements(f)[j], f.kind, formatFloat))
  }

  /** Encoding distributes over concatenation of field lists. */
  lemma {:induction false} PairsAppend(r1: Record, r2: Record, formatFloat: FloatFormatter)
    ensures Pairs(r1 + r2, formatFloat) == Pairs(r1, formatFloat) + Pairs(r2, formatFloat)
  {
    if |r1| == 0 {
      assert r1 + r2 == r2;
    } else {
      assert (r1 + r2)[1..] == r1[1..] + r2;
      PairsAppend(r1[1..], r2, formatFloat);
    }
  }

  /** Field `i`'s pairs sit as one block after the pairs of every earlier
      field and before those of every later field. */
  lemma {:induction false} PairsInDeclarationOrder(r: Record, i: nat, formatFloat: FloatFormatter)
    requires i < |r|
    ensures Pairs(r, formatFloat)
         == Pairs(r[..i], formatFloat) + FieldPairs(r[i], formatFloat) + Pairs(r[i + 1..], formatFloat)
  {
    var head, tail := r[..i], r[i..];
    assert r == head + tail;
    PairsAppend(head, tail, formatFloat);
    assert tail[1..] == r[i + 1..];
    assert Pairs(tail, formatFloat) == FieldPairs(r[i], formatFloat) + Pairs(r[i + 1..], formatFloat);
  }

  lemma FieldValuesFor(f: Field, k: string, formatFloat: FloatFormatter)
    ensures k == Key(f.name) ==> ValuesFor(FieldPairs(f, formatFloat), k) == Texts(f, formatFloat)
    ensures k != Key(f.name) ==> ValuesFor(FieldPairs(f, formatFloat), k) == []
  {
    ValuesForUniformKey(FieldPairs(f, formatFloat), Key(f.name), k);
  }

  /** Nothing is emitted under a key no field has. */
  lemma {:induction false} ValuesForOtherKey(r: Record, k: string, formatFloat: FloatFormatter)
    requires forall i :: 0 <= i < |r| ==> Key(r[i].name) != k
    ensures ValuesFor(Pairs(r, formatFloat), k) == []
  {
    if |r| > 0 {
      ValuesForAppend(FieldPairs(r[0], formatFloat), Pairs(r[1..], formatFloat), k);
      FieldValuesFor(r[0], k, formatFloat);
      ValuesForOtherKey(r[1..], k, formatFloat);
    }
  }

  /** With distinct keys, the values encoded under a field's key are exactly
      that field's texts, in element order. */
  lemma {:induction false} ValuesForFieldKey(r: Record, i: nat, formatFloat: FloatFormatter)
    requires i < |r| && DistinctKeys(r)
    ensures ValuesFor(Pairs(r, formatFloat), Key(r[i].name)) == Texts(r[i], formatFloat)
  {
    var k := Key(r[i].name);
    ValuesForAppend(FieldPairs(r[0], formatFloat), Pairs(r[1..], formatFloat), k);
    FieldValuesFor(r[0], k, formatFloat);
    if i == 0 {
      ValuesForOtherKey(r[1..], k, formatFloat);
    } else {
      ValuesForFieldKey(r[1..], i - 1, formatFloat);
    }
  }
}
