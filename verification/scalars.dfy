/** The closed set of scalar kinds a record field may have, and how one
    scalar value is rendered to and read from query text. */
module Scalars {
  import opened Results
  import Decimal

  datatype Kind = Bool | Int | Float32 | Float64 | Str

  /** A scalar value. Float values are kept as reals: rounding to 32 or 64
      bits belongs to the external float codec below. */
  datatype Scalar = BoolS(b: bool) | IntS(n: int) | FloatS(x: real) | StrS(s: string)

  /** Float rendering (six digits after the point) and float reading are
      numerics outside this model; they are passed in as these functions. */
  type FloatFormatter = (Kind, real) -> string
  type FloatParser = (Kind, string) -> Option<real>

  predicate HasKind(v: Scalar, k: Kind) {
    match k
    case Bool => v.BoolS?
    case Int => v.IntS?
    case Float32 | Float64 => v.FloatS?
    case Str => v.StrS?
  }

  /** The value a freshly declared field of kind `k` holds. */
  function Zero(k: Kind): (v: Scalar)
    ensures HasKind(v, k)
    ensures v in {BoolS(false), IntS(0), FloatS(0.0), StrS("")}
  {
    match k
    case Bool => BoolS(false)
    case Int => IntS(0)
    case Float32 | Float64 => FloatS(0.0)
    case Str => StrS("")
  }

  function FormatBool(b: bool): (s: string)
    ensures s == "true" <==> b
    ensures s == "false" <==> !b
  {
    if b then "true" else "false"
  }

  /** Accepts exactly the two literals `true` and `false`. */
  function ParseBool(s: string): (r: Option<bool>)
    ensures r.Some? <==> s == "true" || s == "false"
    ensures r.Some? ==> FormatBool(r.value) == s
  {
    if s == "true" then Some(true)
    else if s == "false" then Some(false)
    else None
  }

  /** The two bool literals and the two bools correspond one to one. */
  lemma BoolRoundTrip(b: bool, s: string)
    ensures ParseBool(FormatBool(b)) == Some(b)
    ensures ParseBool(s) == Some(b) <==> FormatBool(b) == s
  {
  }

  /** The query text of one scalar of a field of kind `k`. */
  function Format(v: Scalar, k: Kind, formatFloat: FloatFormatter): (s: string)
    ensures v.BoolS? ==> s == FormatBool(v.b)
    ensures v.IntS? ==> s == Decimal.FormatInt(v.n)
    ensures v.FloatS? ==> s == formatFloat(k, v.x)
    ensures v.StrS? ==> s == v.s
  {
    match v
    case BoolS(b) => FormatBool(b)
    case IntS(n) => Decimal.FormatInt(n)
    case FloatS(x) => formatFloat(k, x)
    case StrS(s) => s
  }

  /** Converts query text to a scalar of kind `k`; None when the text is not
      a literal of that kind. Strings always convert, verbatim. */
  function Parse(k: Kind, text: string, parseFloat: FloatParser): (r: Option<Scalar>)
    ensures r.Some? ==> HasKind(r.value, k)
    ensures k == Bool ==> (r.Some? <==> text == "true" || text == "false")
    ensures k == Int ==> (r.Some? <==> Decimal.IsIntLiteral(text))
    ensures (k == Float32 || k == Float64) ==> (r.Some? <==> parseFloat(k, text).Some?)
    ensures k == Str ==> r == Some(StrS(text))
    ensures k == Bool && r.Some? ==> r.value == BoolS(text == "true")
    ensures k == Int && r.Some? ==> Decimal.ParseInt(text) == Some(r.value.n)
    ensures (k == Float32 || k == Float64) && r.Some? ==> parseFloat(k, text) == Some(r.value.x)
  {
    match k
    case Bool =>
      (match ParseBool(text) case Some(b) => Some(BoolS(b)) case None => None)
    case Int =>
      (match Decimal.ParseInt(text) case Some(n) => Some(IntS(n)) case None => None)
    case Float32 | Float64 =>
      (match parseFloat(k, text) case Some(x) => Some(FloatS(x)) case None => None)
    case Str => Some(StrS(text))
  }

  /** The external float codec reads back what it wrote for `v` (holds
      vacuously for non-float scalars). */
  predicate FloatRoundTrips(v: Scalar, k: Kind, formatFloat: FloatFormatter, parseFloat: FloatParser) {
    v.FloatS? ==> parseFloat(k, formatFloat(k, v.x)) == Some(v.x)
  }

  /** Every bool, int and string scalar reads back from its own text, and so
      does a float whenever the float codec round-trips it. */
  lemma ParseFormat(v: Scalar, k: Kind, formatFloat: FloatFormatter, parseFloat: FloatParser)
    requires HasKind(v, k)
    requires FloatRoundTrips(v, k, formatFloat, parseFloat)
    ensures Parse(k, Format(v, k, formatFloat), parseFloat) == Some(v)
  {
    if v.IntS? {
      Decimal.ParseFormatInt(v.n);
    }
  }
}
