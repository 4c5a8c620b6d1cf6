/** The conversion of the `:id` path segment to a Go `int` (64 bits wide),
    as `strconv.Atoi` does it, and the decimal rendering of an int that a
    client uses to build that path segment. */
module Strconv {
  import opened Records

  const MinInt: int := -0x8000_0000_0000_0000
  const MaxInt: int := 0x7fff_ffff_ffff_ffff

  predicate IsDigit(c: char) {
    '0' <= c <= '9'
  }

  predicate AllDigits(s: string) {
    forall i :: 0 <= i < |s| ==> IsDigit(s[i])
  }

  /** The value of a string of decimal digits, most significant first. */
  function DigitsValue(s: string): nat
    requires AllDigits(s)
  {
    if s == [] then 0 else DigitsValue(s[..|s| - 1]) * 10 + (s[|s| - 1] as int - '0' as int)
  }

  /** The digits that follow an optional leading sign. */
  function Unsigned(s: string): string {
    if |s| > 0 && (s[0] == '+' || s[0] == '-') then s[1..] else s
  }

  /** The signed value of a well-formed id: the digits' value, negated
      after a leading `-`. */
  function Signed(s: string): int
    requires Unsigned(s) != "" && AllDigits(Unsigned(s))
  {
    if s[0] == '-' then -(DigitsValue(Unsigned(s)) as int) else DigitsValue(Unsigned(s))
  }

  /** strconv.Atoi: an optional `+` or `-`, then at least one decimal digit,
      and a value that fits a 64-bit int; anything else is an error (None).
      Go tells a syntax error from a range error; the handlers only test
      whether there was an error, so both are None here. */
  function Atoi(s: string): (r: Option<int>)
    ensures r.Some? <==>
              Unsigned(s) != "" && AllDigits(Unsigned(s)) && MinInt <= Signed(s) <= MaxInt
    ensures r.Some? ==> r.value == Signed(s)
    ensures r.Some? && r.value < 0 ==> s[0] == '-'
    ensures Unsigned(s) != "" && AllDigits(Unsigned(s)) && |s| < 19 ==> r.Some?
  {
    var digits := Unsigned(s);
    if digits == [] || !AllDigits(digits) then None
    else
      DigitsValueBound(digits);
      var n: int := if s[0] == '-' then -(DigitsValue(digits) as int) else DigitsValue(digits);
      if MinInt <= n <= MaxInt then Some(n) else None
  }

  function Pow10(k: nat): (p: nat)
    ensures p >= 1
  {
    if k == 0 then 1 else 10 * Pow10(k - 1)
  }

  /** k digits never make a value of 10^k or more. */
  lemma {:induction false} DigitsValueBound(s: string)
    requires AllDigits(s)
    ensures DigitsValue(s) < Pow10(|s|)
    ensures |s| <= 18 ==> DigitsValue(s) <= MaxInt
  {
    if s != [] {
      DigitsValueBound(s[..|s| - 1]);
    }
    Pow10Monotone(|s|, 18);
    Pow10Eighteen();
  }

  lemma Pow10Eighteen()
    ensures Pow10(18) == 1_000_000_000_000_000_000
  {
    assert Pow10(1) == 10;
    assert Pow10(2) == 100;
    assert Pow10(3) == 1000;
    assert Pow10(4) == 10000;
    assert Pow10(5) == 100000;
    assert Pow10(6) == 1000000;
    assert Pow10(7) == 10000000;
    assert Pow10(8) == 100000000;
    assert Pow10(9) == 1000000000;
    assert Pow10(10) == 10000000000;
    assert Pow10(11) == 100000000000;
    assert Pow10(12) == 1000000000000;
    assert Pow10(13) == 10000000000000;
    assert Pow10(14) == 100000000000000;
    assert Pow10(15) == 1000000000000000;
    assert Pow10(16) == 10000000000000000;
    assert Pow10(17) == 100000000000000000;
    assert Pow10(18) == 1000000000000000000;
  }

  lemma {:induction false} Pow10Monotone(i: nat, j: nat)
    ensures i <= j ==> Pow10(i) <= Pow10(j)
    decreases j
  {
    if i < j {
      Pow10Monotone(i, j - 1);
    }
  }

  function DigitChar(d: nat): (c: char)
    requires d < 10
    ensures IsDigit(c)
  {
    ('0' as int + d) as char
  }

  /** The decimal digits of n, without leading zeros. */
  function FormatNat(n: nat): (s: string)
    ensures s != [] && AllDigits(s)
    ensures s[0] != '+' && s[0] != '-'
  {
    if n < 10 then [DigitChar(n)] else FormatNat(n / 10) + [DigitChar(n % 10)]
  }

  /** strconv.Itoa: the decimal rendering of an int, with `-` for negatives. */
  function FormatInt(n: int): (s: string)
    ensures s != []
  {
    if n < 0 then "-" + FormatNat(-n) else FormatNat(n)
  }

  /** Reading back the digits of n gives n. */
  lemma {:induction false} DigitsValueFormatNat(n: nat)
    ensures DigitsValue(FormatNat(n)) == n
  {
    if n >= 10 {
      var prefix := FormatNat(n / 10);
      var s := prefix + [DigitChar(n % 10)];
      assert s[..|s| - 1] == prefix;
      DigitsValueFormatNat(n / 10);
    }
  }

  /** Atoi accepts what FormatInt renders, and gives back the same int:
      the id a client reads from a response addresses the same row. */
  lemma AtoiFormatInt(n: int)
    requires MinInt <= n <= MaxInt
    ensures Atoi(FormatInt(n)) == Some(n)
  {
    DigitsValueFormatNat(if n < 0 then -n else n);
    if n < 0 {
      assert Unsigned(FormatInt(n)) == FormatNat(-n);
    } else {
      assert Unsigned(FormatInt(n)) == FormatNat(n);
    }
  }

  /** A leading zero does not change the value of a digit string. */
  lemma {:induction false} DigitsValueLeadingZero(s: string)
    requires AllDigits(s)
    ensures AllDigits("0" + s) && DigitsValue("0" + s) == DigitsValue(s)
  {
    if s != [] {
      var t := "0" + s;
      assert t[..|t| - 1] == "0" + s[..|s| - 1];
      DigitsValueLeadingZero(s[..|s| - 1]);
    }
  }

  /** Atoi ignores a leading zero: "007" and "7" name the same id. */
  lemma AtoiLeadingZero(s: string)
    requires s != "" && AllDigits(s)
    ensures Atoi("0" + s) == Atoi(s)
  {
    DigitsValueLeadingZero(s);
    assert Unsigned("0" + s) == "0" + s;
  }

  /** Atoi ignores a leading `+`: "+5" and "5" name the same id. */
  lemma AtoiPlusSign(s: string)
    requires AllDigits(s)
    ensures Atoi("+" + s) == Atoi(s)
  {
    assert Unsigned("+" + s) == s;
    if s != "" {
      assert Unsigned(s) == s;
    }
  }
}
