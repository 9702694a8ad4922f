/** The rows of the Encode test table, as lemmas. Each row goes the same
    way: the record's pairs, then their rendering. */
module EncodeVectors {
  import opened Scalars
  import opened Fields
  import opened QueryText
  import opened Encoder

  /** `struct{}{}` encodes to the empty string, without a `?`. */
  lemma EncodeEmptyStruct(formatFloat: FloatFormatter)
    ensures Encode([], formatFloat) == ""
  {
  }

  lemma EncodeBool(formatFloat: FloatFormatter)
    ensures Encode([Field("B", Bool, One(BoolS(true)))], formatFloat) == "?b=true"
  {
  }

  /** Encode is the rendering of the record's pairs. */
  lemma EncodeRendersPairs(r: Record, formatFloat: FloatFormatter, ps: seq<Pair>)
    requires Pairs(r, formatFloat) == ps
    ensures Encode(r, formatFloat) == Render(ps)
  {
  }

  /** Two and three pairs rendered. */
  lemma RenderTwo(a: Pair, b: Pair)
    ensures Render([a, b]) == "?" + (PairText(a) + "&" + PairText(b))
  {
    assert [a, b][1..] == [b];
    assert Join([a, b]) == PairText(a) + "&" + PairText(b);
  }

  lemma RenderThree(a: Pair, b: Pair, c: Pair)
    ensures Render([a, b, c]) == "?" + (PairText(a) + "&" + (PairText(b) + "&" + PairText(c)))
  {
    assert [a, b, c][1..] == [b, c];
    assert [b, c][1..] == [c];
    assert Join([b, c]) == PairText(b) + "&" + PairText(c);
    assert Join([a, b, c]) == PairText(a) + "&" + (PairText(b) + "&" + PairText(c));
  }

  /** The pairs of a single-field record are that field's pairs. */
  lemma SingleFieldPairs(f: Field, formatFloat: FloatFormatter)
    ensures Pairs([f], formatFloat) == FieldPairs(f, formatFloat)
  {
  }

  lemma EncodeBoolSlice(formatFloat: FloatFormatter)
    ensures Encode([Field("B", Bool, Many([BoolS(true), BoolS(false), BoolS(true)]))], formatFloat)
         == "?b=true&b=false&b=true"
  {
    BoolSlicePairs(formatFloat);
    BoolSliceRendered();
    EncodeRendersPairs([Field("B", Bool, Many([BoolS(true), BoolS(false), BoolS(true)]))], formatFloat, [("b", "true"), ("b", "false"), ("b", "true")]);
  }

  lemma BoolSlicePairs(formatFloat: FloatFormatter)
    ensures Pairs([Field("B", Bool, Many([BoolS(true), BoolS(false), BoolS(true)]))], formatFloat)
         == [("b", "true"), ("b", "false"), ("b", "true")]
  {
    SingleFieldPairs(Field("B", Bool, Many([BoolS(true), BoolS(false), BoolS(true)])), formatFloat);
    assert Key("B") == "b";
  }

  lemma BoolSliceRendered()
    ensures Render([("b", "true"), ("b", "false"), ("b", "true")]) == "?b=true&b=false&b=true"
  {
    RenderThree(("b", "true"), ("b", "false"), ("b", "true"));
  }

  lemma EncodeIntSlice(formatFloat: FloatFormatter)
    ensures Encode([Field("I", Int, Many([IntS(1), IntS(3)]))], formatFloat)
         == "?i=1&i=3"
  {
    IntSlicePairs(formatFloat);
    IntSliceRendered();
    EncodeRendersPairs([Field("I", Int, Many([IntS(1), IntS(3)]))], formatFloat, [("i", "1"), ("i", "3")]);
  }

  lemma IntSlicePairs(formatFloat: FloatFormatter)
    ensures Pairs([Field("I", Int, Many([IntS(1), IntS(3)]))], formatFloat)
         == [("i", "1"), ("i", "3")]
  {
    SingleFieldPairs(Field("I", Int, Many([IntS(1), IntS(3)])), formatFloat);
    assert Key("I") == "i";
  }

  lemma IntSliceRendered()
    ensures Render([("i", "1"), ("i", "3")]) == "?i=1&i=3"
  {
    RenderTwo(("i", "1"), ("i", "3"));
  }

  /** Given the six-decimal rendering of the float codec, a float slice
      expands like any other slice. */
  lemma EncodeFloatSlice(formatFloat: FloatFormatter)
    requires formatFloat(Float32, 1.0) == "1.000000" && formatFloat(Float32, 3.0) == "3.000000"
    ensures Encode([Field("F", Float32, Many([FloatS(1.0), FloatS(3.0)]))], formatFloat)
         == "?f=1.000000&f=3.000000"
  {
    FloatSlicePairs(formatFloat);
    FloatSliceRendered();
    EncodeRendersPairs([Field("F", Float32, Many([FloatS(1.0), FloatS(3.0)]))], formatFloat, [("f", "1.000000"), ("f", "3.000000")]);
  }

  lemma FloatSlicePairs(formatFloat: FloatFormatter)
    requires formatFloat(Float32, 1.0) == "1.000000" && formatFloat(Float32, 3.0) == "3.000000"
    ensures Pairs([Field("F", Float32, Many([FloatS(1.0), FloatS(3.0)]))], formatFloat)
         == [("f", "1.000000"), ("f", "3.000000")]
  {
    SingleFieldPairs(Field("F", Float32, Many([FloatS(1.0), FloatS(3.0)])), formatFloat);
    assert Key("F") == "f";
  }

  lemma FloatSliceRendered()
    ensures Render([("f", "1.000000"), ("f", "3.000000")]) == "?f=1.000000&f=3.000000"
  {
    RenderTwo(("f", "1.000000"), ("f", "3.000000"));
  }

  /** Strings are emitted verbatim here; the escaping of the space to `+`
      is the query encoder's and is not modelled. */
  lemma EncodeStringSlice(formatFloat: FloatFormatter)
    ensures Encode([Field("S", Str, Many([StrS("a string"), StrS("str")]))], formatFloat)
         == "?s=a string&s=str"
  {
    StringSlicePairs(formatFloat);
    StringSliceRendered();
    EncodeRendersPairs([Field("S", Str, Many([StrS("a string"), StrS("str")]))], formatFloat, [("s", "a string"), ("s", "str")]);
  }

  lemma StringSlicePairs(formatFloat: FloatFormatter)
    ensures Pairs([Field("S", Str, Many([StrS("a string"), StrS("str")]))], formatFloat)
         == [("s", "a string"), ("s", "str")]
  {
    SingleFieldPairs(Field("S", Str, Many([StrS("a string"), StrS("str")])), formatFloat);
    assert Key("S") == "s";
  }

  lemma StringSliceRendered()
    ensures Render([("s", "a string"), ("s", "str")]) == "?s=a string&s=str"
  {
    RenderTwo(("s", "a string"), ("s", "str"));
  }

  /** Scalar fields come out in declaration order, not sorted by key. */
  lemma EncodeDeclarationOrder(formatFloat: FloatFormatter)
    ensures Encode([Field("I", Int, One(IntS(27))), Field("S", Str, One(StrS("str"))),
                    Field("B", Bool, One(BoolS(true)))], formatFloat)
         == "?i=27&s=str&b=true"
  {
    DeclarationOrderPairs(formatFloat);
    DeclarationOrderRendered();
    EncodeRendersPairs([Field("I", Int, One(IntS(27))), Field("S", Str, One(StrS("str"))),
                        Field("B", Bool, One(BoolS(true)))],
                       formatFloat, [("i", "27"), ("s", "str"), ("b", "true")]);
  }

  lemma DeclarationOrderPairs(formatFloat: FloatFormatter)
    ensures Pairs([Field("I", Int, One(IntS(27))), Field("S", Str, One(StrS("str"))),
                   Field("B", Bool, One(BoolS(true)))], formatFloat)
         == [("i", "27"), ("s", "str"), ("b", "true")]
  {
    var r := [Field("I", Int, One(IntS(27))), Field("S", Str, One(StrS("str"))),
              Field("B", Bool, One(BoolS(true)))];
    assert FieldPairs(r[0], formatFloat) == [("i", "27")] by {
      assert Key("I") == "i";
      assert Decimal.FormatInt(27) == "27";
    }
    assert FieldPairs(r[1], formatFloat) == [("s", "str")] by {
      assert Key("S") == "s";
    }
    assert FieldPairs(r[2], formatFloat) == [("b", "true")] by {
      assert Key("B") == "b";
    }
    assert r[1..][1..] == [r[2]];
    SingleFieldPairs(r[2], formatFloat);
  }

  lemma DeclarationOrderRendered()
    ensures Render([("i", "27"), ("s", "str"), ("b", "true")]) == "?i=27&s=str&b=true"
  {
    RenderThree(("i", "27"), ("s", "str"), ("b", "true"));
  }
}
