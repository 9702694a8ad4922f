/** Decode: a parsed query into the fields of a destination struct. Each
    field, in declaration order, looks up the values under its key and
    converts them to its kind; the first value that does not convert fails
    the whole call. */
module Decoder {
  import opened Results
  import opened Scalars
  import opened Fields
  import opened QueryText

  /** What Decode is handed: only a pointer to a struct can be filled. A
      struct passed by value, or a pointer to anything else, cannot. */
  datatype Dest = StructPtr(record: Record) | NonPointer | NonStructPtr

  datatype Error =
    | InvalidDestination
    | InvalidBool(field: string, text: string)
    | InvalidInt(field: string, text: string)
    | InvalidFloat(field: string, text: string)

  /** The error for `text` that is no literal of kind `k`; string fields
      accept every text, so they have none. */
  function ConversionError(name: string, k: Kind, text: string): (e: Error)
    requires k != Str
    ensures !e.InvalidDestination? && e.field == name && e.text == text
    ensures e.InvalidBool? <==> k == Bool
    ensures e.InvalidInt? <==> k == Int
  {
    match k
    case Bool => InvalidBool(name, text)
    case Int => InvalidInt(name, text)
    case Float32 | Float64 => InvalidFloat(name, text)
  }

  /** A scalar field's key carries at most one value. Which of several
      values a scalar field takes is left open, so the contracts below only
      pin the outcome down for queries where every scalar key is single. */
  predicate SingleValued(q: Query, f: Field) {
    f.value.One? ==> |Values(q, Key(f.name))| <= 1
  }

  /** `e` reports a text under `f`'s key that `f` cannot hold; for a slice
      field, the first such text in query order. */
  predicate Rejects(e: Error, q: Query, f: Field, parseFloat: FloatParser) {
    var texts := Values(q, Key(f.name));
    exists j :: 0 <= j < |texts| && Parse(f.kind, texts[j], parseFloat).None?
      && f.kind != Str && e == ConversionError(f.name, f.kind, texts[j])
      && (f.value.Many? ==> forall i :: 0 <= i < j ==> Parse(f.kind, texts[i], parseFloat).Some?)
  }

  /** The query gives field `f` something it can hold: no values at all, a
      single convertible value for a scalar field, or only convertible
      values for a slice field. */
  predicate Accepts(q: Query, f: Field, parseFloat: FloatParser) {
    var texts := Values(q, Key(f.name));
    || |texts| == 0
    || (f.value.One? && |texts| == 1 && Parse(f.kind, texts[0], parseFloat).Some?)
    || (f.value.Many? && forall j :: 0 <= j < |texts| ==> Parse(f.kind, texts[j], parseFloat).Some?)
  }

  /** Reference definition of one field's decoding: `g` is the field `f`
      after Decode. With no values under its key the field is untouched; a
      scalar field holds the conversion of one of its values (of its only
      value when there is one); a slice field is replaced by all the
      values, converted, in query order. */
  predicate DecodedFrom(q: Query, f: Field, g: Field, parseFloat: FloatParser) {
    var texts := Values(q, Key(f.name));
    && SameDescriptor(f, g)
    && (|texts| == 0 ==> g == f)
    && (|texts| > 0 && g.value.One? ==>
          exists j :: 0 <= j < |texts| && Parse(f.kind, texts[j], parseFloat) == Some(g.value.v))
    && (|texts| > 0 && g.value.Many? ==>
          && |g.value.vs| == |texts|
          && forall j :: 0 <= j < |texts| ==> Parse(f.kind, texts[j], parseFloat) == Some(g.value.vs[j]))
  }

  /** Converts every text in order, stopping at the first that fails. */
  function ParseAll(name: string, k: Kind, texts: seq<string>, parseFloat: FloatParser)
    : (r: Result<seq<Scalar>, Error>)
    ensures r.Success? <==> forall j :: 0 <= j < |texts| ==> Parse(k, texts[j], parseFloat).Some?
    ensures r.Success? ==> |r.value| == |texts|
    ensures r.Success? ==> forall j :: 0 <= j < |texts| ==> Parse(k, texts[j], parseFloat) == Some(r.value[j])
    ensures r.Failure? ==> exists j :: 0 <= j < |texts| && Parse(k, texts[j], parseFloat).None?
                                     && (forall i :: 0 <= i < j ==> Parse(k, texts[i], parseFloat).Some?)
                                     && k != Str && r.error == ConversionError(name, k, texts[j])
  {
    if |texts| == 0 then Success([])
    else match Parse(k, texts[0], parseFloat)
      case None => Failure(ConversionError(name, k, texts[0]))
      case Some(v) =>
        assert forall j :: 1 <= j < |texts| ==> texts[j] == texts[1..][j - 1];
        match ParseAll(name, k, texts[1..], parseFloat)
        case Failure(e) =>
          assert exists j :: (1 <= j < |texts| && Parse(k, texts[j], parseFloat).None?
            && (forall i :: 0 <= i < j ==> Parse(k, texts[i], parseFloat).Some?)
            && e == ConversionError(name, k, texts[j]));
          Failure(e)
        case Success(vs) =>
          Success([v] + vs)
  }

  /** One field: untouched without values, otherwise the values under its
      key converted to its kind. A scalar field given several values takes
      the last one; the contract leaves that choice open. */
  function DecodeField(q: Query, f: Field, parseFloat: FloatParser): (r: Result<Field, Error>)
    ensures SingleValued(q, f) ==> (r.Success? <==> Accepts(q, f, parseFloat))
    ensures (forall j :: 0 <= j < |Values(q, Key(f.name))| ==> Parse(f.kind, Values(q, Key(f.name))[j], parseFloat).Some?)
            ==> r.Success?
    ensures |Values(q, Key(f.name))| > 0
            && (forall j :: 0 <= j < |Values(q, Key(f.name))| ==> Parse(f.kind, Values(q, Key(f.name))[j], parseFloat).None?)
            ==> r.Failure?
    ensures r.Success? ==> DecodedFrom(q, f, r.value, parseFloat)
    ensures r.Failure? ==> Rejects(r.error, q, f, parseFloat)
  {
    var texts := Values(q, Key(f.name));
    if |texts| == 0 then Success(f)
    else match f.value
      case One(_) =>
        var t := texts[|texts| - 1];
        (match Parse(f.kind, t, parseFloat)
         case Some(v) => Success(Field(f.name, f.kind, One(v)))
         case None => Failure(ConversionError(f.name, f.kind, t)))
      case Many(_) =>
        match ParseAll(f.name, f.kind, texts, parseFloat)
        case Success(vs) => Success(Field(f.name, f.kind, Many(vs)))
        case Failure(e) => Failure(e)
  }

  /** Decodes the fields in declaration order; the first field whose values
      do not convert fails the whole record. */
  function DecodeFields(q: Query, r: Record, parseFloat: FloatParser): (res: Result<Record, Error>)
    ensures (forall i :: 0 <= i < |r| ==> SingleValued(q, r[i]))
            ==> (res.Success? <==> forall i :: 0 <= i < |r| ==> Accepts(q, r[i], parseFloat))
    ensures res.Success? ==> |res.value| == |r|
    ensures res.Success? ==> forall i :: 0 <= i < |r| ==> DecodedFrom(q, r[i], res.value[i], parseFloat)
    ensures res.Failure? ==> exists i :: 0 <= i < |r| && !Accepts(q, r[i], parseFloat)
                                         && Rejects(res.error, q, r[i], parseFloat)
  {
    if |r| == 0 then Success([])
    else match DecodeField(q, r[0], parseFloat)
      case Failure(e) => Failure(e)
      case Success(g) =>
        assert forall i :: 1 <= i < |r| ==> r[i] == r[1..][i - 1];
        match DecodeFields(q, r[1..], parseFloat)
        case Failure(e) => Failure(e)
        case Success(rest) => Success([g] + rest)
  }

  /** Fills the struct `d` points to from query `q`. A destination that is
      not a pointer to a struct fails whatever the query holds; otherwise,
      when no scalar key carries several values, the call fails exactly
      when some field cannot hold the values under its key, and on success
      every field is decoded as DecodedFrom says. */
  function Decode(q: Query, d: Dest, parseFloat: FloatParser): (r: Result<Record, Error>)
    ensures r == Failure(InvalidDestination) <==> !d.StructPtr?
    ensures d.StructPtr? && (forall i :: 0 <= i < |d.record| ==> SingleValued(q, d.record[i]))
            ==> (r.Success? <==> forall i :: 0 <= i < |d.record| ==> Accepts(q, d.record[i], parseFloat))
    ensures r.Success? ==> |r.value| == |d.record|
    ensures d.StructPtr? && r.Failure? ==> exists i :: 0 <= i < |d.record| && !Accepts(q, d.record[i], parseFloat)
                                                   && Rejects(r.error, q, d.record[i], parseFloat)
    ensures r.Success? ==> forall i :: 0 <= i < |d.record| ==> DecodedFrom(q, d.record[i], r.value[i], parseFloat)
  {
    match d
    case StructPtr(rec) => DecodeFields(q, rec, parseFloat)
    case NonPointer | NonStructPtr => Failure(InvalidDestination)
  }

  /** Decoding an empty query leaves the struct exactly as it was: a zero
      struct stays zero, scalar and slice fields alike. */
  lemma DecodeEmptyQuery(r: Record, parseFloat: FloatParser)
    ensures Decode(map[], StructPtr(r), parseFloat) == Success(r)
  {
    var res := Decode(map[], StructPtr(r), parseFloat);
    assert forall i :: 0 <= i < |r| ==> Values(map[], Key(r[i].name)) == [];
    assert res.Success?;
    assert forall i :: 0 <= i < |r| ==> res.value[i] == r[i];
    assert res.value == r;
  }

  /** Every decoded field still holds values of its declared kind. */
  lemma DecodeWellTyped(q: Query, r: Record, parseFloat: FloatParser)
    requires WellTypedRecord(r)
    requires Decode(q, StructPtr(r), parseFloat).Success?
    ensures WellTypedRecord(Decode(q, StructPtr(r), parseFloat).value)
  {
  }

  /** A slice field with one value that does not convert fails the whole
      call, however many of its other values convert. */
  lemma InvalidElementFails(q: Query, r: Record, i: nat, j: nat, parseFloat: FloatParser)
    requires i < |r| && r[i].value.Many?
    requires j < |Values(q, Key(r[i].name))|
    requires Parse(r[i].kind, Values(q, Key(r[i].name))[j], parseFloat).None?
    ensures Decode(q, StructPtr(r), parseFloat).Failure?
    ensures Decode(q, StructPtr(r), parseFloat) != Failure(InvalidDestination)
  {
  }

  /** Decode reads the query only through the values under the fields' own
      keys: how keys are interleaved, and what other keys hold, does not
      matter. */
  lemma {:induction false} DecodeDependsOnFieldValues(q1: Query, q2: Query, r: Record, parseFloat: FloatParser)
    requires forall i :: 0 <= i < |r| ==> Values(q1, Key(r[i].name)) == Values(q2, Key(r[i].name))
    ensures DecodeFields(q1, r, parseFloat) == DecodeFields(q2, r, parseFloat)
  {
    if |r| > 0 {
      assert DecodeField(q1, r[0], parseFloat) == DecodeField(q2, r[0], parseFloat);
      assert forall i :: 0 <= i < |r| - 1 ==> r[1..][i] == r[i + 1];
      DecodeDependsOnFieldValues(q1, q2, r[1..], parseFloat);
    }
  }

  /** Decode succeeds with `r'` exactly when every field, decoded on its own,
      succeeds with the corresponding field of `r'`. */
  lemma {:induction false} DecodeFieldwise(q: Query, r: Record, r': Record, parseFloat: FloatParser)
    ensures DecodeFields(q, r, parseFloat) == Success(r')
        <==> |r'| == |r| && forall i :: 0 <= i < |r| ==> DecodeField(q, r[i], parseFloat) == Success(r'[i])
  {
    if |r| > 0 && |r'| == |r| {
      DecodeFieldwise(q, r[1..], r'[1..], parseFloat);
      assert forall i :: 1 <= i < |r| ==> r[1..][i - 1] == r[i] && r'[1..][i - 1] == r'[i];
      assert r' == [r'[0]] + r'[1..];
    }
  }
}
