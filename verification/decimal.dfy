/** Decimal text of integers: how an `int` field is rendered by Encode and
    read back by Decode. */
module Decimal {
  import opened Results

  predicate IsDigit(c: char) {
    '0' <= c <= '9'
  }

  predicate AllDigits(s: string) {
    forall i :: 0 <= i < |s| ==> IsDigit(s[i])
  }

  function DigitChar(d: nat): (c: char)
    requires d < 10
    ensures IsDigit(c)
  {
    ('0' as int + d) as char
  }

  function DigitValue(c: char): (d: nat)
    requires IsDigit(c)
    ensures d < 10
    ensures DigitChar(d) == c
  {
    c as int - '0' as int
  }

  /** Decimal digits of `n`, most significant first, without leading zeros. */
  function FormatNat(n: nat): (s: string)
    ensures |s| >= 1 && AllDigits(s)
    ensures s[0] == '0' ==> n == 0
  {
    if n < 10 then [DigitChar(n)] else FormatNat(n / 10) + [DigitChar(n % 10)]
  }

  /** Decimal text of `n`: a minus sign for negatives, no plus sign. */
  function FormatInt(n: int): (s: string)
    ensures IsCanonical(s)
    ensures s[0] == '-' <==> n < 0
  {
    if n < 0 then "-" + FormatNat(-n) else FormatNat(n)
  }

  /** The number a string of decimal digits denotes. */
  function DigitsValue(s: string): nat
    requires AllDigits(s)
  {
    if |s| == 0 then 0 else DigitsValue(s[..|s| - 1]) * 10 + DigitValue(s[|s| - 1])
  }

  /** The digits after an optional leading sign. */
  function Unsigned(s: string): string {
    if |s| > 0 && (s[0] == '-' || s[0] == '+') then s[1..] else s
  }

  /** An optionally signed, non-empty run of decimal digits. */
  predicate IsIntLiteral(s: string) {
    |Unsigned(s)| > 0 && AllDigits(Unsigned(s))
  }

  /** The one text FormatInt produces for its value: no plus sign, no
      leading zero, no negative zero. */
  predicate IsCanonical(s: string) {
    && IsIntLiteral(s)
    && !(|s| > 0 && s[0] == '+')
    && (Unsigned(s)[0] == '0' ==> s == "0")
  }

  /** Reads an optionally signed decimal integer; anything else is rejected. */
  function ParseInt(s: string): (r: Option<int>)
    ensures r.Some? <==> IsIntLiteral(s)
    ensures r.Some? ==> r.value == (if s[0] == '-' then -(DigitsValue(Unsigned(s)) as int) else DigitsValue(Unsigned(s)))
  {
    var digits := Unsigned(s);
    if |digits| == 0 || !AllDigits(digits) then None
    else
      var v: int := DigitsValue(digits);
      if s[0] == '-' then Some(-v) else Some(v)
  }

  lemma {:induction false} DigitsOfFormatNat(n: nat)
    ensures DigitsValue(FormatNat(n)) == n
  {
    if n >= 10 {
      var s := FormatNat(n);
      DigitsOfFormatNat(n / 10);
      assert s[..|s| - 1] == FormatNat(n / 10);
      assert s[|s| - 1] == DigitChar(n % 10);
    }
  }

  /** Every integer reads back from its own text. */
  lemma {:induction false} ParseFormatInt(n: int)
    ensures ParseInt(FormatInt(n)) == Some(n)
    ensures IsCanonical(FormatInt(n))
  {
    var m: nat := if n < 0 then -n else n;
    DigitsOfFormatNat(m);
    var s := FormatInt(n);
    assert Unsigned(s) == FormatNat(m);
  }

  /** Leading zeros do not change the number a run of digits denotes. */
  lemma {:induction false} LeadingZeroValue(d: string)
    requires AllDigits(d)
    ensures AllDigits("0" + d) && DigitsValue("0" + d) == DigitsValue(d)
  {
    var z := "0" + d;
    assert AllDigits(z) by {
      assert forall i :: 0 < i < |z| ==> z[i] == d[i - 1];
    }
    if |d| > 0 {
      var p := d[..|d| - 1];
      assert z[..|z| - 1] == "0" + p;
      assert z[|z| - 1] == d[|d| - 1];
      LeadingZeroValue(p);
    }
  }

  /** A leading `+` and leading zeros are accepted and leave the value
      unchanged: `+27`, `027` and `27` all read as 27. */
  lemma ParseIntNonCanonical(d: string)
    requires |d| > 0 && AllDigits(d)
    ensures ParseInt("+" + d) == ParseInt(d) == Some(DigitsValue(d))
    ensures ParseInt("0" + d) == ParseInt(d)
  {
    assert Unsigned("+" + d) == d;
    LeadingZeroValue(d);
  }

  lemma {:induction false} LeadingNonZero(s: string)
    requires |s| > 0 && AllDigits(s) && s[0] != '0'
    ensures DigitsValue(s) > 0
  {
    if |s| > 1 {
      LeadingNonZero(s[..|s| - 1]);
    }
  }

  lemma {:induction false} FormatDigitsValue(s: string)
    requires |s| > 0 && AllDigits(s)
    requires s[0] == '0' ==> |s| == 1
    ensures FormatNat(DigitsValue(s)) == s
  {
    if |s| > 1 {
      var init := s[..|s| - 1];
      LeadingNonZero(init);
      FormatDigitsValue(init);
      var v := DigitsValue(s);
      assert v / 10 == DigitsValue(init);
      assert v % 10 == DigitValue(s[|s| - 1]);
      assert s == init + [s[|s| - 1]];
    }
  }

  /** A canonical literal is exactly the text of the value it denotes, so
      FormatInt and ParseInt are inverse bijections between the integers
      and the canonical literals. */
  lemma FormatParseCanonical(s: string)
    requires IsCanonical(s)
    ensures ParseInt(s).Some? && FormatInt(ParseInt(s).value) == s
  {
    var digits := Unsigned(s);
    FormatDigitsValue(digits);
    if s[0] == '-' {
      assert s == "-" + digits;
      LeadingNonZero(digits);
    }
  }
}
