/** The rows of the Decode test tables, as lemmas. Queries are given in
    their parsed, unescaped form. */
module DecodeVectors {
  import opened Results
  import opened Scalars
  import opened Fields
  import opened QueryText
  import opened Decoder

  /** A zero `data` struct with fields `B bool`, `I int`, `F32 float32`,
      `F64 float64`, `S string`. */
  const ScalarData: Record := [
    Field("B", Bool, One(BoolS(false))),
    Field("I", Int, One(IntS(0))),
    Field("F32", Float32, One(FloatS(0.0))),
    Field("F64", Float64, One(FloatS(0.0))),
    Field("S", Str, One(StrS("")))]

  /** A zero `data` struct with the slice fields `B []bool`, `I []int`,
      `F32 []float32`, `F64 []float64`, `S []string`. */
  const SliceData: Record := [
    Field("B", Bool, Many([])),
    Field("I", Int, Many([])),
    Field("F32", Float32, Many([])),
    Field("F64", Float64, Many([])),
    Field("S", Str, Many([]))]

  const DataKeys: seq<string> := ["b", "i", "f32", "f64", "s"]

  lemma KeysOfData()
    ensures forall i :: 0 <= i < 5 ==> Key(ScalarData[i].name) == DataKeys[i]
    ensures forall i :: 0 <= i < 5 ==> Key(SliceData[i].name) == DataKeys[i]
  {
  }

  /** A field whose key the query does not hold is left as it is. */
  lemma Untouched(q: Query, f: Field, parseFloat: FloatParser)
    requires Key(f.name) !in q
    ensures DecodeField(q, f, parseFloat) == Success(f)
  {
  }

  /** A slice field whose values all convert holds exactly those values. */
  lemma SliceDecodes(q: Query, f: Field, vs: seq<Scalar>, parseFloat: FloatParser)
    requires f.value.Many?
    requires |vs| == |Values(q, Key(f.name))| > 0
    requires forall j :: 0 <= j < |vs| ==> Parse(f.kind, Values(q, Key(f.name))[j], parseFloat) == Some(vs[j])
    ensures DecodeField(q, f, parseFloat) == Success(Field(f.name, f.kind, Many(vs)))
  {
    var g := DecodeField(q, f, parseFloat).value;
    assert g.value.vs == vs;
  }

  lemma DecodeScalarsEmptyQuery(parseFloat: FloatParser)
    ensures Decode(map[], StructPtr(ScalarData), parseFloat) == Success(ScalarData)
  {
    DecodeEmptyQuery(ScalarData, parseFloat);
  }

  lemma DecodeBoolTrue(parseFloat: FloatParser)
    ensures Decode(map["b" := ["true"]], StructPtr(ScalarData), parseFloat)
         == Success(ScalarData[0 := Field("B", Bool, One(BoolS(true)))])
  {
    var q := map["b" := ["true"]];
    var want := ScalarData[0 := Field("B", Bool, One(BoolS(true)))];
    KeysOfData();
    forall i | 0 <= i < 5 ensures DecodeField(q, ScalarData[i], parseFloat) == Success(want[i]) {
      if i > 0 { Untouched(q, ScalarData[i], parseFloat); }
    }
    DecodeFieldwise(q, ScalarData, want, parseFloat);
  }

  lemma DecodeBoolInvalid(parseFloat: FloatParser)
    ensures Decode(map["b" := ["not-a-bool"]], StructPtr(ScalarData), parseFloat)
         == Failure(InvalidBool("B", "not-a-bool"))
  {
    var q := map["b" := ["not-a-bool"]];
    KeysOfData();
    assert DecodeField(q, ScalarData[0], parseFloat) == Failure(InvalidBool("B", "not-a-bool"));
  }

  lemma DecodeIntRejectsBool(parseFloat: FloatParser)
    ensures Decode(map["i" := ["true"]], StructPtr(ScalarData), parseFloat)
         == Failure(InvalidInt("I", "true"))
  {
    var q := map["i" := ["true"]];
    KeysOfData();
    Untouched(q, ScalarData[0], parseFloat);
    assert !Decimal.IsDigit('t');
    assert DecodeField(q, ScalarData[1], parseFloat) == Failure(InvalidInt("I", "true"));
    assert ScalarData[1..][0] == ScalarData[1];
  }

  lemma DecodeInt(parseFloat: FloatParser)
    ensures Decode(map["i" := ["27"]], StructPtr(ScalarData), parseFloat)
         == Success(ScalarData[1 := Field("I", Int, One(IntS(27)))])
  {
    var q := map["i" := ["27"]];
    var want := ScalarData[1 := Field("I", Int, One(IntS(27)))];
    KeysOfData();
    assert Decimal.ParseInt("27") == Some(27) by {
      assert Decimal.DigitsValue("27") == 27 by {
        assert "27"[..1] == "2";
      }
    }
    forall i | 0 <= i < 5 ensures DecodeField(q, ScalarData[i], parseFloat) == Success(want[i]) {
      if i != 1 { Untouched(q, ScalarData[i], parseFloat); }
    }
    DecodeFieldwise(q, ScalarData, want, parseFloat);
  }

  /** Whatever the float codec reads `2.7` as lands in the F32 field. */
  lemma DecodeFloat32(parseFloat: FloatParser, x: real)
    requires parseFloat(Float32, "2.7") == Some(x)
    ensures Decode(map["f32" := ["2.7"]], StructPtr(ScalarData), parseFloat)
         == Success(ScalarData[2 := Field("F32", Float32, One(FloatS(x)))])
  {
    var q := map["f32" := ["2.7"]];
    var want := ScalarData[2 := Field("F32", Float32, One(FloatS(x)))];
    KeysOfData();
    forall i | 0 <= i < 5 ensures DecodeField(q, ScalarData[i], parseFloat) == Success(want[i]) {
      if i != 2 { Untouched(q, ScalarData[i], parseFloat); }
    }
    DecodeFieldwise(q, ScalarData, want, parseFloat);
  }

  lemma DecodeFloat32Invalid(parseFloat: FloatParser)
    requires parseFloat(Float32, "not-a-float") == None
    ensures Decode(map["f32" := ["not-a-float"]], StructPtr(ScalarData), parseFloat)
         == Failure(InvalidFloat("F32", "not-a-float"))
  {
    var q := map["f32" := ["not-a-float"]];
    KeysOfData();
    Untouched(q, ScalarData[0], parseFloat);
    Untouched(q, ScalarData[1], parseFloat);
    assert DecodeField(q, ScalarData[2], parseFloat) == Failure(InvalidFloat("F32", "not-a-float"));
    assert ScalarData[1..][1..][0] == ScalarData[2];
  }

  lemma DecodeFloat64(parseFloat: FloatParser, x: real)
    requires parseFloat(Float64, "2.7") == Some(x)
    ensures Decode(map["f64" := ["2.7"]], StructPtr(ScalarData), parseFloat)
         == Success(ScalarData[3 := Field("F64", Float64, One(FloatS(x)))])
  {
    var q := map["f64" := ["2.7"]];
    var want := ScalarData[3 := Field("F64", Float64, One(FloatS(x)))];
    KeysOfData();
    forall i | 0 <= i < 5 ensures DecodeField(q, ScalarData[i], parseFloat) == Success(want[i]) {
      if i != 3 { Untouched(q, ScalarData[i], parseFloat); }
    }
    DecodeFieldwise(q, ScalarData, want, parseFloat);
  }

  lemma DecodeFloat64Invalid(parseFloat: FloatParser)
    requires parseFloat(Float64, "not-a-float") == None
    ensures Decode(map["f64" := ["not-a-float"]], StructPtr(ScalarData), parseFloat)
         == Failure(InvalidFloat("F64", "not-a-float"))
  {
    var q := map["f64" := ["not-a-float"]];
    KeysOfData();
    Untouched(q, ScalarData[0], parseFloat);
    Untouched(q, ScalarData[1], parseFloat);
    Untouched(q, ScalarData[2], parseFloat);
    assert DecodeField(q, ScalarData[3], parseFloat) == Failure(InvalidFloat("F64", "not-a-float"));
    assert ScalarData[1..][1..][1..][0] == ScalarData[3];
  }

  /** The already-unescaped value is stored verbatim. */
  lemma DecodeString(parseFloat: FloatParser)
    ensures Decode(map["s" := ["some string"]], StructPtr(ScalarData), parseFloat)
         == Success(ScalarData[4 := Field("S", Str, One(StrS("some string")))])
  {
    var q := map["s" := ["some string"]];
    var want := ScalarData[4 := Field("S", Str, One(StrS("some string")))];
    KeysOfData();
    forall i | 0 <= i < 5 ensures DecodeField(q, ScalarData[i], parseFloat) == Success(want[i]) {
      if i != 4 { Untouched(q, ScalarData[i], parseFloat); }
    }
    DecodeFieldwise(q, ScalarData, want, parseFloat);
  }

  lemma DecodeSlicesEmptyQuery(parseFloat: FloatParser)
    ensures Decode(map[], StructPtr(SliceData), parseFloat) == Success(SliceData)
  {
    DecodeEmptyQuery(SliceData, parseFloat);
  }

  lemma DecodeBoolSlice(parseFloat: FloatParser)
    ensures Decode(map["b" := ["true", "false"]], StructPtr(SliceData), parseFloat)
         == Success(SliceData[0 := Field("B", Bool, Many([BoolS(true), BoolS(false)]))])
  {
    var q := map["b" := ["true", "false"]];
    var want := SliceData[0 := Field("B", Bool, Many([BoolS(true), BoolS(false)]))];
    KeysOfData();
    forall i | 0 <= i < 5 ensures DecodeField(q, SliceData[i], parseFloat) == Success(want[i]) {
      if i != 0 { Untouched(q, SliceData[i], parseFloat); }
      else { SliceDecodes(q, SliceData[i], [BoolS(true), BoolS(false)], parseFloat); }
    }
    DecodeFieldwise(q, SliceData, want, parseFloat);
  }

  /** One bad element fails the whole call. */
  lemma DecodeBoolSliceInvalid(parseFloat: FloatParser)
    ensures Decode(map["b" := ["true", "not-a-bool"]], StructPtr(SliceData), parseFloat)
         == Failure(InvalidBool("B", "not-a-bool"))
  {
    var q := map["b" := ["true", "not-a-bool"]];
    KeysOfData();
    assert ["true", "not-a-bool"][1..] == ["not-a-bool"];
    assert DecodeField(q, SliceData[0], parseFloat) == Failure(InvalidBool("B", "not-a-bool"));
  }

  lemma DecodeIntSlice(parseFloat: FloatParser)
    ensures Decode(map["i" := ["1", "2"]], StructPtr(SliceData), parseFloat)
         == Success(SliceData[1 := Field("I", Int, Many([IntS(1), IntS(2)]))])
  {
    var q := map["i" := ["1", "2"]];
    var want := SliceData[1 := Field("I", Int, Many([IntS(1), IntS(2)]))];
    KeysOfData();
    assert Decimal.ParseInt("1") == Some(1);
    assert Decimal.ParseInt("2") == Some(2);
    forall i | 0 <= i < 5 ensures DecodeField(q, SliceData[i], parseFloat) == Success(want[i]) {
      if i != 1 { Untouched(q, SliceData[i], parseFloat); }
      else { SliceDecodes(q, SliceData[i], [IntS(1), IntS(2)], parseFloat); }
    }
    DecodeFieldwise(q, SliceData, want, parseFloat);
  }

  lemma DecodeIntSliceInvalid(parseFloat: FloatParser)
    ensures Decode(map["i" := ["1", "not-an-int"]], StructPtr(SliceData), parseFloat)
         == Failure(InvalidInt("I", "not-an-int"))
  {
    var q := map["i" := ["1", "not-an-int"]];
    KeysOfData();
    Untouched(q, SliceData[0], parseFloat);
    assert Decimal.ParseInt("1") == Some(1);
    assert !Decimal.IsDigit('n');
    assert ["1", "not-an-int"][1..] == ["not-an-int"];
    assert DecodeField(q, SliceData[1], parseFloat) == Failure(InvalidInt("I", "not-an-int"));
    assert SliceData[1..][0] == SliceData[1];
  }

  lemma DecodeFloat32Slice(parseFloat: FloatParser, x: real, y: real)
    requires parseFloat(Float32, "1.1") == Some(x) && parseFloat(Float32, "2.1") == Some(y)
    ensures Decode(map["f32" := ["1.1", "2.1"]], StructPtr(SliceData), parseFloat)
         == Success(SliceData[2 := Field("F32", Float32, Many([FloatS(x), FloatS(y)]))])
  {
    var q := map["f32" := ["1.1", "2.1"]];
    var want := SliceData[2 := Field("F32", Float32, Many([FloatS(x), FloatS(y)]))];
    KeysOfData();
    forall i | 0 <= i < 5 ensures DecodeField(q, SliceData[i], parseFloat) == Success(want[i]) {
      if i != 2 { Untouched(q, SliceData[i], parseFloat); }
      else { SliceDecodes(q, SliceData[i], [FloatS(x), FloatS(y)], parseFloat); }
    }
    DecodeFieldwise(q, SliceData, want, parseFloat);
  }

  lemma DecodeFloat32SliceInvalid(parseFloat: FloatParser)
    requires parseFloat(Float32, "not-a-float") == None
    ensures Decode(map["f32" := ["1.1", "not-a-float"]], StructPtr(SliceData), parseFloat).Failure?
  {
    var q := map["f32" := ["1.1", "not-a-float"]];
    KeysOfData();
    InvalidElementFails(q, SliceData, 2, 1, parseFloat);
  }

  lemma DecodeFloat64Slice(parseFloat: FloatParser, x: real, y: real)
    requires parseFloat(Float64, "1.1") == Some(x) && parseFloat(Float64, "2.1") == Some(y)
    ensures Decode(map["f64" := ["1.1", "2.1"]], StructPtr(SliceData), parseFloat)
         == Success(SliceData[3 := Field("F64", Float64, Many([FloatS(x), FloatS(y)]))])
  {
    var q := map["f64" := ["1.1", "2.1"]];
    var want := SliceData[3 := Field("F64", Float64, Many([FloatS(x), FloatS(y)]))];
    KeysOfData();
    forall i | 0 <= i < 5 ensures DecodeField(q, SliceData[i], parseFloat) == Success(want[i]) {
      if i != 3 { Untouched(q, SliceData[i], parseFloat); }
      else { SliceDecodes(q, SliceData[i], [FloatS(x), FloatS(y)], parseFloat); }
    }
    DecodeFieldwise(q, SliceData, want, parseFloat);
  }

  lemma DecodeFloat64SliceInvalid(parseFloat: FloatParser)
    requires parseFloat(Float64, "not-a-float") == None
    ensures Decode(map["f64" := ["1.1", "not-a-float"]], StructPtr(SliceData), parseFloat).Failure?
  {
    var q := map["f64" := ["1.1", "not-a-float"]];
    KeysOfData();
    InvalidElementFails(q, SliceData, 3, 1, parseFloat);
  }

  lemma DecodeStringSlice(parseFloat: FloatParser)
    ensures Decode(map["s" := ["first", "second"]], StructPtr(SliceData), parseFloat)
         == Success(SliceData[4 := Field("S", Str, Many([StrS("first"), StrS("second")]))])
  {
    var q := map["s" := ["first", "second"]];
    var want := SliceData[4 := Field("S", Str, Many([StrS("first"), StrS("second")]))];
    KeysOfData();
    forall i | 0 <= i < 5 ensures DecodeField(q, SliceData[i], parseFloat) == Success(want[i]) {
      if i != 4 { Untouched(q, SliceData[i], parseFloat); }
      else { SliceDecodes(q, SliceData[i], [StrS("first"), StrS("second")], parseFloat); }
    }
    DecodeFieldwise(q, SliceData, want, parseFloat);
  }

  /** `s=first&i=1&s=second&i=2`: the parsed query collects each key's
      values in order, and each slice field gets its own. */
  lemma DecodeInterleaved(parseFloat: FloatParser)
    ensures Decode(Group([("s", "first"), ("i", "1"), ("s", "second"), ("i", "2")]), StructPtr(SliceData), parseFloat)
         == Success(SliceData[1 := Field("I", Int, Many([IntS(1), IntS(2)]))]
                             [4 := Field("S", Str, Many([StrS("first"), StrS("second")]))])
  {
    var q := Group([("s", "first"), ("i", "1"), ("s", "second"), ("i", "2")]);
    var grouped := map["i" := ["1", "2"], "s" := ["first", "second"]];
    KeysOfData();
    forall i | 0 <= i < |SliceData|
      ensures Values(q, Key(SliceData[i].name)) == Values(grouped, Key(SliceData[i].name))
    {
      InterleavedValues(DataKeys[i]);
    }
    DecodeDependsOnFieldValues(q, grouped, SliceData, parseFloat);
    DecodeGrouped(parseFloat);
  }

  lemma DecodeGrouped(parseFloat: FloatParser)
    ensures Decode(map["i" := ["1", "2"], "s" := ["first", "second"]], StructPtr(SliceData), parseFloat)
         == Success(SliceData[1 := Field("I", Int, Many([IntS(1), IntS(2)]))]
                             [4 := Field("S", Str, Many([StrS("first"), StrS("second")]))])
  {
    var q := map["i" := ["1", "2"], "s" := ["first", "second"]];
    var want := SliceData[1 := Field("I", Int, Many([IntS(1), IntS(2)]))]
                         [4 := Field("S", Str, Many([StrS("first"), StrS("second")]))];
    KeysOfData();
    assert Decimal.ParseInt("1") == Some(1);
    assert Decimal.ParseInt("2") == Some(2);
    forall i | 0 <= i < 5 ensures DecodeField(q, SliceData[i], parseFloat) == Success(want[i]) {
      if i == 1 { SliceDecodes(q, SliceData[1], [IntS(1), IntS(2)], parseFloat); }
      else if i == 4 { SliceDecodes(q, SliceData[4], [StrS("first"), StrS("second")], parseFloat); }
      else { Untouched(q, SliceData[i], parseFloat); }
    }
    DecodeFieldwise(q, SliceData, want, parseFloat);
  }

  lemma InterleavedValues(k: string)
    ensures ValuesFor([("s", "first"), ("i", "1"), ("s", "second"), ("i", "2")], k)
         == Values(map["i" := ["1", "2"], "s" := ["first", "second"]], k)
  {
    var ps := [("s", "first"), ("i", "1"), ("s", "second"), ("i", "2")];
    assert ValuesFor(ps[..1], k) == (if k == "s" then ["first"] else []) by {
      assert ps[..1][..0] == [];
    }
    assert ValuesFor(ps[..2], k) == (if k == "s" then ["first"] else if k == "i" then ["1"] else []) by {
      assert ps[..2][..1] == ps[..1];
    }
    assert ValuesFor(ps[..3], k)
        == (if k == "s" then ["first", "second"] else if k == "i" then ["1"] else []) by {
      assert ps[..3][..2] == ps[..2];
    }
    assert ps[..4][..3] == ps[..3];
    assert ps[..4] == ps;
  }

  /** `Decode(q, &i)` with `i int` and `Decode(q, x)` with `x` a struct
      value both fail, for the test's query `a=b&c=d` as for any other. */
  lemma DecodeInvalidDestination(q: Query, parseFloat: FloatParser)
    ensures Decode(q, NonStructPtr, parseFloat) == Failure(InvalidDestination)
    ensures Decode(q, NonPointer, parseFloat) == Failure(InvalidDestination)
  {
  }
}
