/**
 * strconv.Atoi on a platform whose `int` is 64 bits wide, and the decimal
 * rendering of a non-negative number that fmt's %d verb produces.
 */
module Strconv {
  import opened Wrappers

  const IntMin: int := -0x8000_0000_0000_0000
  const IntMax: int := 0x7FFF_FFFF_FFFF_FFFF

  predicate IsDigit(c: char) {
    '0' <= c <= '9'
  }

  predicate AllDigits(s: string) {
    forall i :: 0 <= i < |s| ==> IsDigit(s[i])
  }

  function DigitValue(c: char): (d: nat)
    requires IsDigit(c)
    ensures d < 10
  {
    c as int - '0' as int
  }

  function DigitChar(d: nat): (c: char)
    requires d < 10
    ensures IsDigit(c) && DigitValue(c) == d
  {
    ('0' as int + d) as char
  }

  /** The value of a string of decimal digits, most significant first. */
  function DigitsValue(s: string): (n: nat)
    requires AllDigits(s)
  {
    if s == [] then 0 else DigitsValue(s[..|s| - 1]) * 10 + DigitValue(s[|s| - 1])
  }

  /** The digits after an optional leading '+' or '-'. */
  function Unsigned(s: string): (digits: string) {
    if |s| > 0 && (s[0] == '+' || s[0] == '-') then s[1..] else s
  }

  /**
   * strconv.Atoi: an optional sign followed by at least one decimal digit and
   * nothing else, whose value fits in a 64-bit int; any other text is an error.
   */
  function Atoi(s: string): (r: Option<int>)
    ensures r.Some? ==> IntMin <= r.value <= IntMax
    ensures r.Some? ==> |Unsigned(s)| >= 1 && AllDigits(Unsigned(s))
    ensures r.Some? ==> (r.value < 0 ==> s[0] == '-')
  {
    var digits := Unsigned(s);
    if digits == [] || !AllDigits(digits) then None
    else
      var n: int := DigitsValue(digits);
      var v: int := if s[0] == '-' then -n else n;
      if IntMin <= v <= IntMax then Some(v) else None
  }

  /** The decimal digits of n, without sign or leading zeros (fmt's %d). */
  function FormatDecimal(n: nat): (s: string)
    ensures |s| >= 1 && AllDigits(s)
    ensures s[0] == '0' ==> n == 0
    ensures n == 0 ==> s == "0"
  {
    if n < 10 then [DigitChar(n)] else FormatDecimal(n / 10) + [DigitChar(n % 10)]
  }

  lemma {:induction false} DigitsValueFormat(n: nat)
    ensures DigitsValue(FormatDecimal(n)) == n
  {
    if n >= 10 {
      var s := FormatDecimal(n);
      assert s[..|s| - 1] == FormatDecimal(n / 10);
      DigitsValueFormat(n / 10);
    }
  }

  /** Parsing the decimal rendering of a number gives the number back while it
      fits in an int, and fails beyond that. */
  lemma {:induction false} AtoiFormatDecimal(n: nat)
    ensures Atoi(FormatDecimal(n)) == if n <= IntMax then Some(n) else None
  {
    var s := FormatDecimal(n);
    assert IsDigit(s[0]);
    assert Unsigned(s) == s;
    DigitsValueFormat(n);
  }

  /** With a sign in front the value is negated ('-') or kept ('+'); the least
      value accepted is -2^63. */
  lemma {:induction false} AtoiSigned(n: nat)
    ensures Atoi("-" + FormatDecimal(n)) == if n <= -IntMin then Some(-(n as int)) else None
    ensures Atoi("+" + FormatDecimal(n)) == if n <= IntMax then Some(n) else None
  {
    var s := FormatDecimal(n);
    assert Unsigned("-" + s) == s;
    assert Unsigned("+" + s) == s;
    DigitsValueFormat(n);
  }

  /** A leading zero does not change the number: Atoi reads "0080" as 80. */
  lemma {:induction false} DigitsValueLeadingZero(d: string)
    requires AllDigits(d)
    ensures AllDigits("0" + d) && DigitsValue("0" + d) == DigitsValue(d)
  {
    if d != [] {
      var init := d[..|d| - 1];
      DigitsValueLeadingZero(init);
      assert ("0" + d)[..|d|] == "0" + init;
    }
  }

  /** Leading zeros after the optional sign are accepted and ignored, so Atoi
      is fixed on every text by this lemma and the two round trips above. */
  lemma AtoiLeadingZero(sign: string, d: string)
    requires sign == "" || sign == "+" || sign == "-"
    requires |d| >= 1 && AllDigits(d)
    ensures Atoi(sign + "0" + d) == Atoi(sign + d)
  {
    assert Unsigned(sign + "0" + d) == "0" + d;
    assert Unsigned(sign + d) == d;
    DigitsValueLeadingZero(d);
    assert (sign + "0" + d)[0] == '-' <==> (sign + d)[0] == '-';
  }

  /** A second ':' (or any other non-digit after the sign) makes Atoi fail. */
  lemma AtoiRejectsColon(s: string)
    requires ':' in s
    ensures Atoi(s) == None
  {
    var i :| 0 <= i < |s| && s[i] == ':';
    var digits := Unsigned(s);
    if i == 0 {
      assert digits == s && !IsDigit(digits[0]);
    } else if digits != s {
      assert digits[i - 1] == ':';
    } else {
      assert !IsDigit(digits[i]);
    }
  }

  /** Atoi accepts a sign and values beyond 16 bits. */
  lemma AtoiExamples()
    ensures Atoi("-1") == Some(-1)
    ensures Atoi("65536") == Some(65536)
  {
    assert Unsigned("-1") == "1";
    assert DigitsValue("1") == 1 by {
      assert "1"[..0] == "";
    }
    assert Unsigned("65536") == "65536";
    assert DigitsValue("65536") == 65536 by {
      assert "65536"[..4] == "6553" && "6553"[..3] == "655" && "655"[..2] == "65" && "65"[..1] == "6";
      assert "6"[..0] == "";
    }
  }
}
