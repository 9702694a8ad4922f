/** Records as ordered lists of field descriptors, standing in for the
    reflection walk over a struct's declared fields. */
module Fields {
  import opened Scalars

  /** A scalar field holds one value; a slice field holds a sequence. */
  datatype Value = One(v: Scalar) | Many(vs: seq<Scalar>)

  datatype Field = Field(name: string, kind: Kind, value: Value)

  /** The fields of a struct, in declaration order. */
  type Record = seq<Field>

  predicate IsUpper(c: char) {
    'A' <= c <= 'Z'
  }

  function LowerChar(c: char): (d: char)
    ensures !IsUpper(d)
    ensures IsUpper(c) ==> d as int == c as int + 32
    ensures !IsUpper(c) ==> d == c
  {
    if IsUpper(c) then (c as int + 32) as char else c
  }

  /** The query key of a field: its name lower-cased over ASCII letters,
      nothing else changed (no separators are inserted). */
  function Key(name: string): (k: string)
    ensures |k| == |name|
    ensures forall i :: 0 <= i < |k| ==> !IsUpper(k[i])
    ensures forall i :: 0 <= i < |k| ==> (k[i] == name[i] <==> !IsUpper(name[i]))
    ensures forall i :: 0 <= i < |k| && IsUpper(name[i]) ==> k[i] as int == name[i] as int + 32
  {
    seq(|name|, i requires 0 <= i < |name| => LowerChar(name[i]))
  }

  /** Lower-casing twice is lower-casing once, and a name without upper-case
      letters is its own key. */
  lemma KeyIdempotent(name: string)
    ensures Key(Key(name)) == Key(name)
    ensures (forall i :: 0 <= i < |name| ==> !IsUpper(name[i])) <==> Key(name) == name
  {
  }

  /** The scalars a field holds, in order: one for a scalar field. */
  function Elements(f: Field): seq<Scalar> {
    match f.value
    case One(v) => [v]
    case Many(vs) => vs
  }

  predicate WellTyped(f: Field) {
    match f.value
    case One(v) => HasKind(v, f.kind)
    case Many(vs) => forall j :: 0 <= j < |vs| ==> HasKind(vs[j], f.kind)
  }

  predicate WellTypedRecord(r: Record) {
    forall i :: 0 <= i < |r| ==> WellTyped(r[i])
  }

  /** No two fields share a query key (distinct Go names can still collide
      once lower-cased, e.g. `AB` and `Ab`). */
  predicate DistinctKeys(r: Record) {
    forall i, j :: 0 <= i < j < |r| ==> Key(r[i].name) != Key(r[j].name)
  }

  /** Same name, kind and shape (scalar or slice): decoding never changes
      what a field is, only what it holds. */
  predicate SameDescriptor(f: Field, g: Field) {
    f.name == g.name && f.kind == g.kind && f.value.One? == g.value.One?
  }

  /** A field as a fresh `var x T` declares it: zero scalar or empty slice. */
  function ZeroField(f: Field): (z: Field)
    ensures SameDescriptor(f, z) && WellTyped(z)
    ensures z.value.Many? ==> z.value.vs == []
    ensures z.value.One? ==> z.value.v == Zero(f.kind)
  {
    match f.value
    case One(_) => Field(f.name, f.kind, One(Zero(f.kind)))
    case Many(_) => Field(f.name, f.kind, Many([]))
  }

  function ZeroRecord(r: Record): (z: Record)
    ensures |z| == |r| && WellTypedRecord(z)
    ensures forall i :: 0 <= i < |r| ==> z[i] == ZeroField(r[i])
  {
    seq(|r|, i requires 0 <= i < |r| => ZeroField(r[i]))
  }
}
