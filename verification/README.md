# qparams in Dafny

A reference model of the `qparams` Go package, which converts between a flat
struct and a URL query. It has two operations:

- `Encode(record) -> (string, error)` turns a struct's fields into a query
  string. Fields are visited in declaration order. A scalar field gives one
  `key=value` item and a slice field gives one item per element. The result
  is `""` when there are no items, otherwise `?` followed by the items joined
  with `&`.
- `Decode(url.Values, dest) -> error` fills a struct through a pointer from a
  parsed query. Each field looks up the values under its key and converts them
  to the field's kind. A value that does not convert fails the call, and so
  does a destination that is not a pointer to a struct.

A field's query key is its name lower-cased, so `F32` becomes `f32`.

The package's implementation is not part of this model. Its test suite,
`query_test.go`, pins the contract down, and every row of its three test
tables, and the two calls of `TestDecodeInvalidQuery`, is stated below as a
lemma. Where the tests leave a behaviour open,
the model makes its own choice, and "## Left out" names each such choice.

Go reflection becomes an explicit list of field descriptors. A `Field`
holds a name, a `Kind` (`Bool`, `Int`, `Float32`, `Float64`, `Str`) and a
`Value`, which is `One` scalar or `Many` scalars for a slice. A record is
the list of its fields in declaration order. Decode's destination is a
`Dest`: `StructPtr(record)`, `NonPointer` (for example a struct passed by
value) or `NonStructPtr` (for example `&i` with `i int`). Decode returns
the filled record, or an `Error`.

Modules, one per file:

| file | module | what it holds |
|---|---|---|
| results.dfy | `Results` | `Option`, `Result` |
| decimal.dfy | `Decimal` | decimal text of integers, both directions |
| scalars.dfy | `Scalars` | kinds, scalar values, per-kind rendering and conversion |
| fields.dfy | `Fields` | field descriptors, query keys, zero values |
| querytext.dfy | `QueryText` | the parsed multi-map, pair grouping, the `?k=v&k=v` text |
| encoder.dfy | `Encoder` | Encode |
| decoder.dfy | `Decoder` | Decode and its relational specification `DecodedFrom` |
| roundtrip.dfy | `RoundTrip` | Decode inverts Encode |
| encode_vectors.dfy | `EncodeVectors` | the rows of `TestEncodeQuery` |
| decode_vectors.dfy | `DecodeVectors` | the rows of `TestDecodeQuery`, `TestDecodeQueryArray`, `TestDecodeInvalidQuery` |

## Model

| member | source | states |
|---|---|---|
| Decimal.ParseInt | query_test.go:67-68 | accepts exactly an optionally signed non-empty run of digits (so `true` is rejected), with the value the digits denote, negated after a `-` |
| Decimal.ParseIntNonCanonical | query_test.go:67-68 | a leading `+` or leading zeros are accepted and do not change the value: `+27`, `027` and `27` all read as 27 |
| Decimal.FormatInt | query_test.go:17-24 | an int is rendered as a canonical literal (no plus sign, no leading zero, no negative zero) that starts with `-` exactly for negative values; `ParseFormatInt` reads it back |
| Decimal.ParseFormatInt | query_test.go:17-24 | every integer's decimal text reads back as that integer, and the text is canonical |
| Decimal.FormatParseCanonical | query_test.go:20-24 | a canonical literal is exactly the text of the value it denotes, so the two directions are inverse bijections |
| Scalars.Zero | query_test.go:81-81 | each kind's zero value is a value of that kind and one of `false`, `0`, `0.0`, `""` |
| Scalars.ParseBool | query_test.go:65-66 | a bool accepts exactly `true` and `false`, and an accepted literal is the rendering of its value |
| Scalars.FormatBool | query_test.go:15-16 | `true` renders as `true` and `false` as `false`, and nothing else is produced; `BoolRoundTrip` reads it back |
| Scalars.BoolRoundTrip | query_test.go:15-16 | `true`/`false` and the two bools correspond one to one, in both directions |
| Scalars.Parse | query_test.go:64-73 | conversion per kind: the result has the field's kind; bools and ints accept exactly their literals, floats whatever the float codec accepts, strings every text verbatim; the value read is the bool the literal names, the int `ParseInt` reads, the float the codec reads, or the text itself |
| Scalars.Format | query_test.go:15-24 | a bool renders as its own literal (`FormatBool`), an int as its canonical decimal text (`FormatInt`), a float as the codec's rendering for the field's kind, and a string verbatim; `ParseFormat` converts each back |
| Scalars.ParseFormat | query_test.go:15-24 | every bool, int and string scalar converts back from its own rendering, and so does a float when the float codec round-trips it |
| Fields.Key | query_test.go:52-73 | a field's key is its name lower-cased: same length, every ASCII upper-case letter replaced by its lower-case letter (code point + 32), every other character kept, no upper case left |
| Fields.KeyIdempotent | query_test.go:52-73 | lower-casing a key again changes nothing; a name is its own key exactly when it has no upper-case letter |
| Fields.ZeroField | query_test.go:81-81 | a freshly declared field keeps its name, kind and shape, holds its kind's zero value (`false`, `0`, `0.0`, `""`) for a scalar field, and an empty slice for a slice field |
| Fields.ZeroRecord | query_test.go:133-133 | a fresh struct has one well-typed zero field per declared field |
| QueryText.Group | query_test.go:125-125 | collecting query items gives each key all of its values in item order, however keys are interleaved |
| QueryText.Render | query_test.go:14-20 | the query string is empty exactly when there are no items, and otherwise starts with `?` |
| QueryText.UnrenderRender | query_test.go:14-24 | rendering loses nothing: the items read back from the query string when their text needs no escaping |
| Encoder.EmitEach | query_test.go:16-19 | a slice yields one item per element, all under the field's key, in element order |
| Encoder.FieldPairs | query_test.go:15-19 | a scalar field yields exactly one item whatever its value; a slice field yields one per element, in order |
| Encoder.Pairs | query_test.go:15-24 | a record yields exactly one item per scalar it holds; `PairsInDeclarationOrder` places each field's items in declaration order |
| Encoder.Encode | query_test.go:14-24 | the result is `""` exactly when every field is an empty slice (or there are none), otherwise it starts with `?`, and any scalar field makes it non-empty |
| Encoder.PairsEmpty | query_test.go:14-14 | a record yields no items exactly when every field is an empty slice |
| Encoder.PairsAppend | query_test.go:20-24 | the items of two field lists back to back are the first list's items followed by the second's |
| Encoder.PairsInDeclarationOrder | query_test.go:20-24 | field i's items form one block after all earlier fields' items and before all later ones; keys are not sorted |
| Encoder.ValuesForOtherKey | query_test.go:15-19 | nothing is emitted under a key that no field has |
| Encoder.ValuesForFieldKey | query_test.go:15-19 | with distinct keys, the values emitted under a field's key are exactly that field's rendered elements, in order |
| Decoder.ConversionError | query_test.go:66-67 | a conversion error names the field and the offending text, and its kind matches the field's kind |
| Decoder.ParseAll | query_test.go:116-123 | a slice's values convert exactly when every value converts; on success, element j is value j converted; on failure, the error names the first value, in query order, that does not convert |
| Decoder.DecodeField | query_test.go:64-73 | when the key is single-valued for a scalar field (or the field is a slice), one field succeeds exactly when the query gives it something it can hold; it always succeeds when every value converts and fails when none does; a success is decoded as `DecodedFrom` says; a failure names a bad value, for a slice the first one |
| Decoder.DecodeFields | query_test.go:115-125 | when no scalar key carries several values, all fields succeed exactly when each accepts; the result has one field per input field, each related by `DecodedFrom`; a failure names a field that cannot hold its values |
| Decoder.Decode | query_test.go:39-97 | `InvalidDestination` is returned exactly when the destination is not a pointer to a struct, whatever the query; otherwise, when no scalar key carries several values, Decode succeeds exactly when every field accepts its values; any success decodes each field as `DecodedFrom` says, and any other failure names a field that cannot hold its values and one of its bad texts (for a slice, the first) |
| Decoder.DecodeEmptyQuery | query_test.go:64-64 | an empty query leaves the struct unchanged, scalar and slice fields alike |
| Decoder.DecodeWellTyped | query_test.go:81-93 | every decoded field still holds values of its declared kind |
| Decoder.InvalidElementFails | query_test.go:117-123 | one slice value that does not convert fails the whole call, with a conversion error |
| Decoder.DecodeDependsOnFieldValues | query_test.go:125-125 | Decode reads the query only through the values under the fields' own keys |
| Decoder.DecodeFieldwise | query_test.go:127-146 | Decode yields a record exactly when each field, decoded on its own, yields the corresponding field |
| RoundTrip.FieldRoundTrip | query_test.go:15-19 | a field's rendered values, decoded into its zero value, give the field back, and no other decoding of them is possible |
| RoundTrip.EncodeDecodeRoundTrip | query_test.go:116-125 | decoding a record's encoded items into a fresh struct gives the record back (keys distinct, floats round-tripped by the codec) |
| RoundTrip.EncodeTextRoundTrip | query_test.go:14-24 | the same round trip through the query string itself, when no text needs escaping |
| EncodeVectors.EncodeEmptyStruct | query_test.go:14-14 | `struct{}{}` encodes to `""` |
| EncodeVectors.EncodeBool | query_test.go:15-15 | `{B: true}` encodes to `?b=true` |
| EncodeVectors.EncodeBoolSlice | query_test.go:16-16 | `{B: []bool{true, false, true}}` encodes to `?b=true&b=false&b=true` |
| EncodeVectors.EncodeIntSlice | query_test.go:17-17 | `{I: []int{1, 3}}` encodes to `?i=1&i=3` |
| EncodeVectors.EncodeFloatSlice | query_test.go:18-18 | `{F: []float32{1, 3}}` encodes to `?f=1.000000&f=3.000000`, given the codec's six-decimal rendering |
| EncodeVectors.EncodeStringSlice | query_test.go:19-19 | `{S: []string{"a string", "str"}}` encodes to two `s` items in order (unescaped) |
| EncodeVectors.EncodeDeclarationOrder | query_test.go:20-24 | `{I: 27, S: "str", B: true}` encodes to `?i=27&s=str&b=true` |
| DecodeVectors.KeysOfData | query_test.go:52-58 | the `data` fields' keys are `b`, `i`, `f32`, `f64`, `s` |
| DecodeVectors.DecodeScalarsEmptyQuery | query_test.go:64-64 | an empty query leaves the zero `data` struct as it is |
| DecodeVectors.DecodeBoolTrue | query_test.go:65-65 | `b=true` sets `B` to true and nothing else |
| DecodeVectors.DecodeBoolInvalid | query_test.go:66-66 | `b=not-a-bool` fails with an invalid-bool error |
| DecodeVectors.DecodeIntRejectsBool | query_test.go:67-67 | `i=true` fails with an invalid-int error |
| DecodeVectors.DecodeInt | query_test.go:68-68 | `i=27` sets `I` to 27 and nothing else |
| DecodeVectors.DecodeFloat32 | query_test.go:69-69 | `f32=2.7` sets `F32` to whatever the codec reads `2.7` as |
| DecodeVectors.DecodeFloat32Invalid | query_test.go:70-70 | `f32=not-a-float` fails with an invalid-float error when the codec rejects the text |
| DecodeVectors.DecodeFloat64 | query_test.go:71-71 | `f64=2.7` sets `F64` to whatever the codec reads `2.7` as |
| DecodeVectors.DecodeFloat64Invalid | query_test.go:72-72 | `f64=not-a-float` fails with an invalid-float error when the codec rejects the text |
| DecodeVectors.DecodeString | query_test.go:73-73 | an (already unescaped) string value is stored verbatim |
| DecodeVectors.DecodeSlicesEmptyQuery | query_test.go:115-115 | an empty query leaves the zero slice struct as it is |
| DecodeVectors.DecodeBoolSlice | query_test.go:116-116 | `b=true&b=false` sets `B` to `[true, false]` |
| DecodeVectors.DecodeBoolSliceInvalid | query_test.go:117-117 | `b=true&b=not-a-bool` fails |
| DecodeVectors.DecodeIntSlice | query_test.go:118-118 | `i=1&i=2` sets `I` to `[1, 2]` |
| DecodeVectors.DecodeIntSliceInvalid | query_test.go:119-119 | `i=1&i=not-an-int` fails |
| DecodeVectors.DecodeFloat32Slice | query_test.go:120-120 | `f32=1.1&f32=2.1` sets `F32` to the two converted values, in order |
| DecodeVectors.DecodeFloat32SliceInvalid | query_test.go:121-121 | `f32=1.1&f32=not-a-float` fails when the codec rejects the second text |
| DecodeVectors.DecodeFloat64Slice | query_test.go:122-122 | `f64=1.1&f64=2.1` sets `F64` to the two converted values, in order |
| DecodeVectors.DecodeFloat64SliceInvalid | query_test.go:123-123 | `f64=1.1&f64=not-a-float` fails when the codec rejects the second text |
| DecodeVectors.DecodeStringSlice | query_test.go:124-124 | `s=first&s=second` sets `S` to `["first", "second"]` |
| DecodeVectors.DecodeInterleaved | query_test.go:125-125 | `s=first&i=1&s=second&i=2` sets `S` and `I` independently, each in order |
| DecodeVectors.DecodeGrouped | query_test.go:125-125 | the grouped form of that query decodes to the same two slices |
| DecodeVectors.InterleavedValues | query_test.go:125-125 | grouping the interleaved items gives `s: [first, second]`, `i: [1, 2]` and nothing else |
| DecodeVectors.DecodeInvalidDestination | query_test.go:39-49 | a pointer to an int and a struct passed by value both fail with `InvalidDestination`, for `a=b&c=d` as for any query |

## Left out

- Float numerics are not modelled. The `%f` six-decimal rendering and the parsing of float text into `float32`/`float64` are not part of this model. Encode takes a `formatFloat` function and Decode a `parseFloat` function in their place. Float values are held as reals.
- Percent-encoding and URL parsing (`net/url`) are not modelled. Keys and values are opaque, already-unescaped text. `QueryText.Unrender` is only a reference reader for text that needs no escaping.
- EncodeVectors.EncodeStringSlice: states `?s=a string&s=str` where the source gives `?s=a+string&s=str`. Turning the space into `+` is the URL encoder's job.
- EncodeVectors.EncodeFloatSlice: holds only given the codec's renderings of 1 and 3. The same goes for DecodeVectors.DecodeFloat32, DecodeFloat64, DecodeFloat32Slice, DecodeFloat64Slice and the invalid-float vectors, which assume the codec's answer for each text.
- RoundTrip.EncodeDecodeRoundTrip: requires the float codec to read back every float in the record. The six-decimal rendering makes that true only for some values.
- Go reflection is replaced by explicit field descriptors. The `testing` package's table runner is replaced by one lemma per table row.
- Unsupported field types cannot be written as a `Kind`, so the error for them is not modelled. Encode therefore returns a plain string; the tests never see an error from it.
- Decode returns a new record instead of writing through a pointer. On failure it returns no record, so the model says nothing about which fields were already set before the error.
- Decimal.ParseInt: ints are unbounded. Go's 64-bit range and its overflow error are not modelled.
- Decimal.ParseInt: accepting an optional leading `+`/`-` is this model's choice. The tests do not exercise signed ints.
- Scalars.ParseBool: accepting exactly `true` and `false` is this model's choice. Go's `strconv.ParseBool` would also accept `1`, `t`, `T`, `TRUE`, `True` and their false counterparts. The implementation is not part of this model, and the tests only pin down `true` and `not-a-bool`.
- Decoder.Decode: no test exercises five behaviours, and the model's own choices fill them in; three are listed here and two on the next line. A key no field has is ignored. When several fields are bad, the error reported is the first bad field in declaration order. A scalar field given several values takes the last one. That last choice stays in the function bodies only: `Decoder.Decode`, `Decoder.DecodeFields` and `Decoder.DecodeField` promise their success iff only when no scalar key carries several values, and `Decoder.DecodedFrom` only says a scalar holds the conversion of one of its values. An implementation that takes the first value meets the same contracts.
- Decoder.Decode: the tests decode only into a zero struct, so the other two behaviours are this model's choices, and both are stated in `Decoder.DecodedFrom`. A slice field given values is replaced rather than appended to. A field without values keeps its prior value, even a non-zero one. Decode also does not require distinct keys, so two fields whose names lower-case to the same key (`AB` and `Ab`) both receive that key's values.
- Decoder.DecodeField: with several values under a scalar field's key, promises success when all convert and failure when none does, and leaves the mixed case open (see the `Decoder.Decode` line).
- Decoder.DecodeFields: its success iff holds only when no scalar key carries several values, for the same reason.
- Fields.Key: lower-cases ASCII letters only. Go's Unicode lower-casing of non-ASCII names is not modelled.
- `Decode(a=b&c=d, x)` fails in the test because `x` is a struct passed by value, not a pointer. The model fails it for that reason alone, whatever the query holds.
