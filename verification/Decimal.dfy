/** Go's int32 conversion and the decimal printer and parser of strconv. */
module Decimal {
  import opened Types

  const MIN_INT32: int := -0x8000_0000
  const MAX_INT32: int := 0x7FFF_FFFF
  const MIN_INT64: int := -0x8000_0000_0000_0000
  const MAX_INT64: int := 0x7FFF_FFFF_FFFF_FFFF

  predicate IsInt32(n: int) { MIN_INT32 <= n <= MAX_INT32 }

  predicate IsInt64(n: int) { MIN_INT64 <= n <= MAX_INT64 }

  /** The conversion int32(n): two's complement truncation. */
  function Wrap32(n: int): (r: int)
    ensures IsInt32(r)
    ensures (r == n) <==> IsInt32(n)
    ensures (r - n) % 0x1_0000_0000 == 0
  {
    (n + 0x8000_0000) % 0x1_0000_0000 - 0x8000_0000
  }

  predicate IsDigit(c: char) { '0' <= c <= '9' }

  function Digit(d: nat): (c: char)
    requires d < 10
  {
    '0' + d as char
  }

  function DigitValue(c: char): (d: nat)
    requires IsDigit(c)
  {
    (c - '0') as nat
  }

  function Digits(n: nat): (s: string)
    ensures |s| > 0
  {
    if n < 10 then [Digit(n)] else Digits(n / 10) + [Digit(n % 10)]
  }

  /** strconv.Itoa */
  function Itoa(n: int): (s: string) {
    if n < 0 then "-" + Digits(-n) else Digits(n)
  }

  /** The value of a run of digits; None when a character is not a digit. */
  function Value(s: string): (v: Option<nat>) {
    if s == [] then Some(0)
    else if !IsDigit(s[|s| - 1]) then None
    else
      match Value(s[..|s| - 1])
      case None => None
      case Some(high) => Some(10 * high + DigitValue(s[|s| - 1]))
  }

  /** strconv.Atoi on a 64-bit platform: an optional sign, at least one digit, and a value that
      fits; everything else is an error. */
  function Atoi(s: string): (r: Option<int>) {
    if s == "" then None
    else
      var signed := s[0] == '+' || s[0] == '-';
      var body := if signed then s[1..] else s;
      if body == "" then None
      else
        match Value(body)
        case None => None
        case Some(v) =>
          var n: int := if s[0] == '-' then 0 - v else v;
          if IsInt64(n) then Some(n) else None
  }

  lemma {:induction false} DigitsAreDigits(n: nat)
    ensures forall i :: 0 <= i < |Digits(n)| ==> IsDigit(Digits(n)[i])
  {
    if n >= 10 {
      DigitsAreDigits(n / 10);
    }
  }

  lemma {:induction false} ValueOfDigits(n: nat)
    ensures Value(Digits(n)) == Some(n)
  {
    var s := Digits(n);
    if n < 10 {
      assert s[..0] == [];
    } else {
      ValueOfDigits(n / 10);
      assert s[..|s| - 1] == Digits(n / 10);
    }
  }

  /** In base ten, most significant digit first. */
  lemma BaseTen()
    ensures Itoa(1234567890) == "1234567890" && Itoa(-10) == "-10"
  {
    assert Digits(1) == "1" && Digits(12) == "12" && Digits(123) == "123" && Digits(1234) == "1234";
    assert Digits(12345) == "12345" && Digits(123456) == "123456" && Digits(1234567) == "1234567";
    assert Digits(12345678) == "12345678" && Digits(123456789) == "123456789";
  }

  /** Printing and parsing are inverse on every Go int. */
  lemma AtoiOfItoa(n: int)
    requires IsInt64(n)
    ensures Atoi(Itoa(n)) == Some(n)
  {
    if n < 0 {
      ValueOfDigits(-n);
      assert Itoa(n)[1..] == Digits(-n);
    } else {
      ValueOfDigits(n);
      DigitsAreDigits(n);
      assert IsDigit(Itoa(n)[0]);
    }
  }

  predicate AllDigits(s: string) { forall i :: 0 <= i < |s| ==> IsDigit(s[i]) }

  lemma {:induction false} ValueIff(s: string)
    ensures Value(s).Some? <==> AllDigits(s)
  {
    if s != [] {
      var n := |s| - 1;
      ValueIff(s[..n]);
      assert s == s[..n] + [s[n]];
    }
  }

  /** What follows the sign, if there is one. */
  function Unsigned(s: string): (body: string) {
    if s != "" && (s[0] == '+' || s[0] == '-') then s[1..] else s
  }

  /** A decimal integer, sign and all, is what Atoi accepts, unless its value does not fit. */
  lemma AtoiIff(s: string)
    ensures Atoi(s).Some? ==> Unsigned(s) != "" && AllDigits(Unsigned(s))
    ensures Unsigned(s) != "" && AllDigits(Unsigned(s)) ==>
              && Value(Unsigned(s)).Some?
              && var n: int := if s[0] == '-' then 0 - Value(Unsigned(s)).value else Value(Unsigned(s)).value;
                 Atoi(s) == if IsInt64(n) then Some(n) else None
  {
    ValueIff(Unsigned(s));
  }

  /** Digits without a leading zero are the digits of their value. */
  lemma {:induction false} DigitsOfValue(s: string)
    requires s != "" && AllDigits(s) && (|s| == 1 || s[0] != '0')
    ensures Value(s).Some? && Digits(Value(s).value) == s && (s[0] != '0' ==> Value(s).value > 0)
  {
    var n := |s| - 1;
    var front := s[..n];
    if n == 0 {
      assert front == [];
    } else {
      DigitsOfValue(front);
      assert s == front + [s[n]];
    }
  }

  /** The other way round: what is written the way Itoa writes reads back to print the same. */
  lemma ItoaOfAtoi(s: string)
    requires Atoi(s).Some? && s[0] != '+'
    requires var body := Unsigned(s); (body[0] == '0' ==> s == "0")
    ensures Itoa(Atoi(s).value) == s
  {
    AtoiIff(s);
    DigitsOfValue(Unsigned(s));
    if s[0] == '-' {
      assert s == "-" + Unsigned(s);
    }
  }

  /** Two ints that print alike are the same int. */
  lemma ItoaInjective(m: int, n: int)
    requires IsInt64(m) && IsInt64(n) && Itoa(m) == Itoa(n)
    ensures m == n
  {
    AtoiOfItoa(m);
    AtoiOfItoa(n);
  }
}
