/** The bytes `[]byte(strconv.Itoa(n))`: the decimal text of an integer as Go
    writes it, one ASCII byte per character. */
module Strconv {

  const Minus: bv8 := 0x2d
  const Zero: bv8 := 0x30
  /** The ASCII codes of '0' to '9'. */
  const DigitBytes: seq<bv8> := [0x30, 0x31, 0x32, 0x33, 0x34, 0x35, 0x36, 0x37, 0x38, 0x39]

  predicate IsDigit(c: bv8) {
    Zero <= c <= 0x39
  }

  /** The ASCII decimal digits of `n`, most significant first, without
      leading zeros ("0" for zero). */
  function Digits(n: nat): seq<bv8>
    decreases n
  {
    if n < 10 then [DigitBytes[n]]
    else Digits(n / 10) + [DigitBytes[n % 10]]
  }

  /** `[]byte(strconv.Itoa(n))`: a minus sign before the digits of a
      negative number. */
  function Itoa(n: int): seq<bv8> {
    if n < 0 then [Minus] + Digits(-n) else Digits(n)
  }

  lemma {:induction false} DigitsShape(n: nat)
    ensures |Digits(n)| > 0
    ensures forall j :: 0 <= j < |Digits(n)| ==> IsDigit(Digits(n)[j])
    ensures n > 0 ==> Digits(n)[0] != Zero
    decreases n
  {
    if n < 10 {
      DigitByteValue(n);
    } else {
      DigitByteValue(n % 10);
      DigitsShape(n / 10);
    }
  }

  /** The text is never empty, starts with a minus sign exactly when the
      number is negative, and is otherwise made of decimal digits. */
  lemma ItoaShape(n: int)
    ensures |Itoa(n)| > 0
    ensures n < 0 <==> Itoa(n)[0] == Minus
    ensures forall j :: 0 <= j < |Itoa(n)| ==> IsDigit(Itoa(n)[j]) || (j == 0 && Itoa(n)[j] == Minus)
  {
    if n < 0 {
      NegativeShape(n);
    } else {
      NonNegativeShape(n);
    }
  }

  lemma NegativeShape(n: int)
    requires n < 0
    ensures |Itoa(n)| > 0 && Itoa(n)[0] == Minus
    ensures forall j :: 0 <= j < |Itoa(n)| ==> IsDigit(Itoa(n)[j]) || (j == 0 && Itoa(n)[j] == Minus)
  {
    DigitsShape(-n);
    SignedShape(Digits(-n));
  }

  /** A minus sign followed by digits. */
  lemma SignedShape(d: seq<bv8>)
    requires forall j :: 0 <= j < |d| ==> IsDigit(d[j])
    ensures forall j :: 0 <= j < |[Minus] + d| ==> IsDigit(([Minus] + d)[j]) || (j == 0 && ([Minus] + d)[j] == Minus)
  {
    var t := [Minus] + d;
    forall j | 1 <= j < |t|
      ensures IsDigit(t[j])
    {
      assert t[j] == d[j - 1];
    }
  }

  lemma NonNegativeShape(n: int)
    requires n >= 0
    ensures |Itoa(n)| > 0 && Itoa(n)[0] != Minus
    ensures forall j :: 0 <= j < |Itoa(n)| ==> IsDigit(Itoa(n)[j])
  {
    var d := Digits(n);
    DigitsShape(n);
    assert Itoa(n) == d;
    assert IsDigit(d[0]);
  }

  /** The value of a decimal digit; a byte that is not a digit reads as 0. */
  function DigitValue(c: bv8): nat {
    if c == 0x30 then 0 else if c == 0x31 then 1 else if c == 0x32 then 2
    else if c == 0x33 then 3 else if c == 0x34 then 4 else if c == 0x35 then 5
    else if c == 0x36 then 6 else if c == 0x37 then 7 else if c == 0x38 then 8
    else if c == 0x39 then 9 else 0
  }

  lemma DigitByteValue(d: nat)
    requires d < 10
    ensures IsDigit(DigitBytes[d]) && DigitValue(DigitBytes[d]) == d
    ensures d > 0 ==> DigitBytes[d] != Zero
  {
  }

  /** The decimal reading of a string of digits, most significant first (a
      reference reading of the text, in the manner of `strconv.Atoi`). */
  function ParseDigits(s: seq<bv8>): nat
    decreases |s|
  {
    if s == [] then 0
    else ParseDigits(s[..|s| - 1]) * 10 + DigitValue(s[|s| - 1])
  }

  /** A leading minus sign negates the digits that follow it. */
  function Atoi(s: seq<bv8>): int {
    if s != [] && s[0] == Minus then -(ParseDigits(s[1..]) as int) else ParseDigits(s)
  }

  lemma {:induction false} ParseDigitsOfDigits(n: nat)
    ensures ParseDigits(Digits(n)) == n
    decreases n
  {
    if n < 10 {
      DigitByteValue(n);
    } else {
      DigitByteValue(n % 10);
      var s := Digits(n);
      assert s[..|s| - 1] == Digits(n / 10);
      ParseDigitsOfDigits(n / 10);
    }
  }

  /** Reading the text back gives the number: `Itoa` loses nothing. */
  lemma AtoiOfItoa(n: int)
    ensures Atoi(Itoa(n)) == n
  {
    if n < 0 {
      AtoiOfNegative(n);
    } else {
      AtoiOfNonNegative(n);
    }
  }

  lemma AtoiOfNegative(n: int)
    requires n < 0
    ensures Atoi(Itoa(n)) == n
  {
    ParseDigitsOfDigits(-n);
    AtoiOfSigned(Digits(-n));
  }

  lemma AtoiOfNonNegative(n: int)
    requires n >= 0
    ensures Atoi(Itoa(n)) == n
  {
    DigitsHead(n);
    ParseDigitsOfDigits(n);
    AtoiOfUnsigned(Digits(n));
  }

  lemma AtoiOfUnsigned(d: seq<bv8>)
    requires d != [] && IsDigit(d[0])
    ensures Atoi(d) == ParseDigits(d)
  {
  }

  /** The first byte of `Digits(n)` is a digit. `DigitsShape` gives this for
      every byte; this narrower form keeps `AtoiOfNonNegative` free of the
      quantifier over all positions, which the solver handles poorly there. */
  lemma {:induction false} DigitsHead(n: nat)
    ensures |Digits(n)| > 0 && IsDigit(Digits(n)[0])
    decreases n
  {
    if n < 10 {
      DigitByteValue(n);
    } else {
      DigitsHead(n / 10);
      assert Digits(n)[0] == Digits(n / 10)[0];
    }
  }

  lemma AtoiOfSigned(d: seq<bv8>)
    ensures Atoi([Minus] + d) == -(ParseDigits(d) as int)
  {
    assert ([Minus] + d)[1..] == d;
  }
}
