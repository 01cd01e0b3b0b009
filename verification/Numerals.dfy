/** Numeric path variables: `strconv.Atoi` on 64-bit `int`, its printed form, and the conversion both
    `processTemplate` loops apply to each variable. */
module Numerals {
  import opened Prelude

  const INT_MAX: int := 0x7fff_ffff_ffff_ffff
  const INT_MIN: int := -0x8000_0000_0000_0000

  /** A template value: what the data map holds under a variable's name. */
  datatype Value = Num(n: int) | Str(s: string)

  predicate IsDigit(c: char) { '0' <= c <= '9' }

  predicate Digits(s: string) {
    s != "" && forall i :: 0 <= i < |s| ==> IsDigit(s[i])
  }

  function DigitOf(c: char): nat
    requires IsDigit(c)
  {
    c as int - '0' as int
  }

  /** The number a digit string denotes, of any length. */
  function Magnitude(s: string): nat
    requires Digits(s)
  {
    var last := DigitOf(s[|s| - 1]);
    if |s| == 1 then last else 10 * Magnitude(s[..|s| - 1]) + last
  }

  /** `strconv.Atoi`: an optional sign, then decimal digits, within the range of a 64-bit `int`. */
  function Atoi(s: string): Option<int> {
    var signed := s != "" && (s[0] == '+' || s[0] == '-');
    var digits := if signed then s[1..] else s;
    if !Digits(digits) then None
    else
      var magnitude: int := Magnitude(digits);
      var n := if signed && s[0] == '-' then -magnitude else magnitude;
      InRange(n)
  }

  function InRange(n: int): Option<int> {
    if INT_MIN <= n <= INT_MAX then Some(n) else None
  }

  function PrintNat(n: nat): string {
    var last := [('0' as int + n % 10) as char];
    if n < 10 then last else PrintNat(n / 10) + last
  }

  function PrintInt(n: int): string {
    if n < 0 then "-" + PrintNat(-n) else PrintNat(n)
  }

  /** The loop body of server/server.go:194-198. */
  function Convert(v: string): Value {
    match Atoi(v)
    case Some(n) => Num(n)
    case None => Str(v)
  }

  /** How the template engine prints a value. */
  function Print(v: Value): string {
    match v
    case Num(n) => PrintInt(n)
    case Str(s) => s
  }

  /** No sign but `-`, no leading zero, no negative zero. */
  predicate Canonical(s: string) {
    var digits := if s != "" && s[0] == '-' then s[1..] else s;
    && Digits(digits)
    && (digits[0] == '0' ==> s == "0")
  }

  lemma {:induction false} PrintNatIsDigits(n: nat)
    ensures Digits(PrintNat(n)) && Magnitude(PrintNat(n)) == n
    ensures PrintNat(n)[0] == '0' ==> n == 0 && PrintNat(n) == "0"
  {
    if n < 10 {
    } else {
      PrintNatIsDigits(n / 10);
      var s := PrintNat(n);
      assert s[..|s| - 1] == PrintNat(n / 10);
    }
  }

  /** A digit string without a leading zero is the printed form of its value. */
  lemma {:induction false} CanonicalDigitsArePrinted(s: string)
    requires Digits(s) && (s[0] == '0' ==> s == "0")
    ensures PrintNat(Magnitude(s)) == s
  {
    if |s| == 1 {
    } else {
      var init := s[..|s| - 1];
      assert Digits(init) && init[0] == s[0];
      CanonicalDigitsArePrinted(init);
      PrintNatIsDigits(Magnitude(init));
      assert Magnitude(init) >= 1;
      var last := DigitOf(s[|s| - 1]);
      assert Magnitude(s) / 10 == Magnitude(init) && Magnitude(s) % 10 == last;
      assert s == init + [s[|s| - 1]];
    }
  }

  lemma AtoiUnsigned(digits: string)
    requires Digits(digits)
    ensures Atoi(digits) == InRange(Magnitude(digits))
  {
    assert IsDigit(digits[0]);
  }

  lemma AtoiSigned(sign: char, digits: string)
    requires sign == '+' || sign == '-'
    ensures Atoi([sign] + digits) ==
            if !Digits(digits) then None else InRange(if sign == '+' then Magnitude(digits) else 0 - Magnitude(digits))
  {
    assert ([sign] + digits)[1..] == digits;
  }

  /** Printing an `int` and parsing it back is the identity. */
  lemma AtoiPrintInt(n: int)
    requires INT_MIN <= n <= INT_MAX
    ensures Atoi(PrintInt(n)) == Some(n) && Canonical(PrintInt(n))
  {
    if n < 0 {
      PrintNatIsDigits(-n);
      AtoiSigned('-', PrintNat(-n));
      assert PrintInt(n)[1..] == PrintNat(-n);
    } else {
      PrintNatIsDigits(n);
      AtoiUnsigned(PrintNat(n));
      assert IsDigit(PrintInt(n)[0]);
    }
  }

  /** Rendering a converted variable and converting it again changes nothing, for every text. */
  lemma ConvertPrintConvert(v: string)
    ensures Convert(Print(Convert(v))) == Convert(v)
  {
    match Atoi(v) {
      case Some(n) => AtoiPrintInt(n);
      case None =>
    }
  }

  /** An accepted numeral prints as the canonical decimal of the same value, and there is only one. */
  lemma NumeralsPrintCanonically(v: string)
    requires Atoi(v).Some?
    ensures Canonical(Print(Convert(v))) && Atoi(Print(Convert(v))) == Atoi(v)
    ensures forall c :: Canonical(c) && Atoi(c) == Atoi(v) ==> c == Print(Convert(v))
  {
    AtoiPrintInt(Atoi(v).value);
    forall c | Canonical(c) && Atoi(c) == Atoi(v) ensures c == Print(Convert(v)) {
      CanonicalIsPrinted(c);
    }
  }

  lemma CanonicalIsPrinted(c: string)
    requires Canonical(c) && Atoi(c).Some?
    ensures PrintInt(Atoi(c).value) == c
  {
    var digits := if c[0] == '-' then c[1..] else c;
    if c[0] == '-' {
      assert c == "-" + digits;
      assert digits[0] != '0';
      CanonicalDigitsArePrinted(digits);
      PrintNatIsDigits(Magnitude(digits));
      assert Magnitude(digits) != 0;
    } else {
      assert IsDigit(c[0]);
      CanonicalDigitsArePrinted(digits);
    }
  }

  /** The template shows a variable's text unchanged exactly when it is no in-range numeral or is
      already canonical. */
  lemma ShownUnchangedIff(v: string)
    ensures Print(Convert(v)) == v <==> Atoi(v).None? || Canonical(v)
  {
    if Atoi(v).Some? {
      NumeralsPrintCanonically(v);
    }
  }

  // ----- which texts are numerals -----------------------------------------------------------

  function Zeros(k: nat): string {
    seq(k, i requires 0 <= i < k => '0')
  }

  /** A sign that may stand before the digits of `n`. */
  predicate SignFits(sign: string, n: int) {
    (sign == "-" && n <= 0) || ((sign == "" || sign == "+") && n >= 0)
  }

  lemma {:induction false} ZerosAddNothing(k: nat, m: nat)
    ensures Digits(Zeros(k) + PrintNat(m)) && Magnitude(Zeros(k) + PrintNat(m)) == m
    decreases k, m
  {
    PrintNatIsDigits(m);
    var s := Zeros(k) + PrintNat(m);
    if k > 0 {
      if m >= 10 {
        ZerosAddNothing(k, m / 10);
        assert s[..|s| - 1] == Zeros(k) + PrintNat(m / 10);
      } else {
        ZerosAddNothing(k - 1, 0);
        assert s[..|s| - 1] == Zeros(k - 1) + PrintNat(0);
      }
    } else {
      assert s == PrintNat(m);
    }
  }

  lemma {:induction false} LeadingZeroAddsNothing(s: string)
    requires Digits(s)
    ensures Digits("0" + s) && Magnitude("0" + s) == Magnitude(s)
  {
    if |s| == 1 {
      assert ("0" + s)[..1] == "0";
    } else {
      var init := s[..|s| - 1];
      LeadingZeroAddsNothing(init);
      assert ("0" + s)[..|s|] == "0" + init;
    }
  }

  /** Every digit string is zeros before the printed form of its value. */
  lemma {:induction false} DigitsAreZerosAndPrint(s: string) returns (k: nat)
    requires Digits(s)
    ensures s == Zeros(k) + PrintNat(Magnitude(s))
  {
    if s[0] != '0' || s == "0" {
      CanonicalDigitsArePrinted(s);
      k := 0;
      assert s == Zeros(0) + s;
    } else {
      var rest := s[1..];
      assert s == "0" + rest;
      assert Digits(rest) by {
        assert forall i :: 0 <= i < |rest| ==> rest[i] == s[i + 1];
      }
      LeadingZeroAddsNothing(rest);
      var j := DigitsAreZerosAndPrint(rest);
      k := j + 1;
      ZerosGrow(j, PrintNat(Magnitude(rest)));
    }
  }

  lemma ZerosGrow(j: nat, tail: string)
    ensures Zeros(j + 1) + tail == "0" + (Zeros(j) + tail)
  {
  }

  /** `s` is a sign, leading zeros and the decimal digits of `n`. */
  predicate Writes(s: string, sign: string, k: nat, n: int) {
    SignFits(sign, n) && s == sign + (Zeros(k) + PrintNat(Abs(n)))
  }

  function Abs(n: int): nat { if n < 0 then -n else n }

  lemma SignedIsWritten(sign: char, digits: string) returns (k: nat)
    requires (sign == '+' || sign == '-') && Atoi([sign] + digits).Some?
    ensures Writes([sign] + digits, [sign], k, Atoi([sign] + digits).value)
  {
    AtoiSigned(sign, digits);
    k := DigitsAreZerosAndPrint(digits);
  }

  lemma AcceptedIsWritten(s: string) returns (sign: string, k: nat)
    requires Atoi(s).Some?
    ensures INT_MIN <= Atoi(s).value <= INT_MAX && Writes(s, sign, k, Atoi(s).value)
  {
    if s[0] == '+' || s[0] == '-' {
      sign := [s[0]];
      assert s == sign + s[1..];
      k := SignedIsWritten(s[0], s[1..]);
    } else {
      sign := "";
      AtoiUnsigned(s);
      k := DigitsAreZerosAndPrint(s);
      assert s == sign + s;
    }
  }

  lemma WrittenIsAccepted(s: string, sign: string, k: nat, n: int)
    requires INT_MIN <= n <= INT_MAX && Writes(s, sign, k, n)
    ensures Atoi(s) == Some(n)
  {
    ZerosAddNothing(k, Abs(n));
    var digits := Zeros(k) + PrintNat(Abs(n));
    if sign == "" {
      assert s == digits;
      AtoiUnsigned(digits);
    } else {
      AtoiSigned(sign[0], digits);
      assert s == [sign[0]] + digits;
    }
  }

  /** `Atoi` accepts exactly an optional sign, any number of leading zeros and the decimal digits of a
      64-bit value, and returns that value. */
  lemma AtoiExactly(s: string, n: int)
    ensures Atoi(s) == Some(n) <==>
            && -9223372036854775808 <= n <= 9223372036854775807
            && exists sign: string, k: nat :: Writes(s, sign, k, n)
  {
    if Atoi(s) == Some(n) {
      var sign, k := AcceptedIsWritten(s);
    }
    forall sign: string, k: nat | INT_MIN <= n <= INT_MAX && Writes(s, sign, k, n) ensures Atoi(s) == Some(n) {
      WrittenIsAccepted(s, sign, k, n);
    }
  }

  /** What the data map holds for a variable: the number of an accepted numeral, any other text as it is. */
  lemma NumeralBecomesNumber(v: string, n: int)
    ensures Convert(v) == Num(n) <==>
            && -9223372036854775808 <= n <= 9223372036854775807
            && exists sign: string, k: nat :: Writes(v, sign, k, n)
    ensures Convert(v).Num? || Convert(v) == Str(v)
  {
    AtoiExactly(v, n);
  }

  function Pow10(k: nat): nat { if k == 0 then 1 else 10 * Pow10(k - 1) }

  const DIGITS := "0123456789"

  lemma DigitAt(d: nat)
    requires d < 10
    ensures IsDigit(DIGITS[d]) && DigitOf(DIGITS[d]) == d
  {
  }

  /** Decimal notation: a digit counts its place in `0123456789`, times ten for every digit after it. */
  lemma MagnitudeIsPositional(d: nat, s: string)
    requires d < 10 && Digits(s)
    ensures Digits([DIGITS[d]]) && Magnitude([DIGITS[d]]) == d
    ensures Digits([DIGITS[d]] + s) && Magnitude([DIGITS[d]] + s) == d * Pow10(|s|) + Magnitude(s)
  {
    DigitAt(d);
    Positional(DIGITS[d], s);
  }

  lemma {:induction false} Positional(c: char, s: string)
    requires IsDigit(c) && Digits(s)
    ensures Digits([c] + s) && Magnitude([c] + s) == DigitOf(c) * Pow10(|s|) + Magnitude(s)
  {
    var whole, init := [c] + s, s[..|s| - 1];
    assert whole[..|whole| - 1] == [c] + init && whole[|whole| - 1] == s[|s| - 1];
    if |s| == 1 {
      assert [c] + init == [c];
      assert Pow10(1) == 10 * Pow10(0);
    } else {
      Positional(c, init);
      assert Pow10(|s|) == 10 * Pow10(|s| - 1);
    }
  }
}
