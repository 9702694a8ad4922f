/** Decode inverts Encode: a record encoded to pairs, collected into a
    query and decoded into a fresh struct of the same type comes back
    unchanged. */
module RoundTrip {
  import opened Results
  import opened Scalars
  import opened Fields
  import opened QueryText
  import opened Encoder
  import opened Decoder

  /** The float codec reads back every float the record holds. */
  predicate FloatsRoundTrip(r: Record, formatFloat: FloatFormatter, parseFloat: FloatParser) {
    forall i, j :: 0 <= i < |r| && 0 <= j < |Elements(r[i])| ==>
      FloatRoundTrips(Elements(r[i])[j], r[i].kind, formatFloat, parseFloat)
  }

  /** One field: its texts, decoded into its zero value, give it back; the
      field accepts them, and no other decoding of them is possible. */
  lemma {:induction false} FieldRoundTrip(q: Query, f: Field, formatFloat: FloatFormatter, parseFloat: FloatParser)
    requires WellTyped(f)
    requires forall j :: 0 <= j < |Elements(f)| ==> FloatRoundTrips(Elements(f)[j], f.kind, formatFloat, parseFloat)
    requires Values(q, Key(f.name)) == Texts(f, formatFloat)
    ensures SingleValued(q, ZeroField(f)) && Accepts(q, ZeroField(f), parseFloat)
    ensures forall g :: DecodedFrom(q, ZeroField(f), g, parseFloat) ==> g == f
    ensures DecodeField(q, ZeroField(f), parseFloat) == Success(f)
  {
    var texts := Texts(f, formatFloat);
    var es := Elements(f);
    forall j | 0 <= j < |es| ensures Parse(f.kind, texts[j], parseFloat) == Some(es[j]) {
      ParseFormat(es[j], f.kind, formatFloat, parseFloat);
    }
    forall g | DecodedFrom(q, ZeroField(f), g, parseFloat) ensures g == f {
      if g.value.Many? && |texts| > 0 {
        assert g.value.vs == es;
      }
    }
  }

  /** Round trip through the multi-map. */
  lemma {:induction false} EncodeDecodeRoundTrip(r: Record, formatFloat: FloatFormatter, parseFloat: FloatParser)
    requires WellTypedRecord(r) && DistinctKeys(r)
    requires FloatsRoundTrip(r, formatFloat, parseFloat)
    ensures Decode(Group(Pairs(r, formatFloat)), StructPtr(ZeroRecord(r)), parseFloat) == Success(r)
  {
    var q := Group(Pairs(r, formatFloat));
    var z := ZeroRecord(r);
    forall i | 0 <= i < |r| ensures DecodeField(q, z[i], parseFloat) == Success(r[i]) {
      ValuesForFieldKey(r, i, formatFloat);
      FieldRoundTrip(q, r[i], formatFloat, parseFloat);
    }
    DecodeFieldwise(q, z, r, parseFloat);
  }

  /** Round trip through the query string itself, for records whose keys
      and texts need no escaping. */
  lemma {:induction false} EncodeTextRoundTrip(r: Record, formatFloat: FloatFormatter, parseFloat: FloatParser)
    requires WellTypedRecord(r) && DistinctKeys(r)
    requires FloatsRoundTrip(r, formatFloat, parseFloat)
    requires SeparatorFree(Pairs(r, formatFloat))
    ensures Decode(Group(Unrender(Encode(r, formatFloat))), StructPtr(ZeroRecord(r)), parseFloat) == Success(r)
  {
    UnrenderRender(Pairs(r, formatFloat));
    EncodeDecodeRoundTrip(r, formatFloat, parseFloat);
  }
}
