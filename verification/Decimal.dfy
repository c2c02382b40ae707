/** Decimal numerals as `fmt.Sprintf("%d")` prints them and `fmt.Sscanf("%d")` reads them. */
module Decimal {
  import opened Text

  const MAX_INT: int := 0x7fff_ffff_ffff_ffff
  const TWO_64: int := 0x1_0000_0000_0000_0000

  /** Two's-complement wrap-around of a 64-bit signed integer. */
  function Wrap(n: int): (r: int)
    ensures -MAX_INT - 1 <= r <= MAX_INT
    ensures -MAX_INT - 1 <= n <= MAX_INT ==> r == n
  {
    (n + MAX_INT + 1) % TWO_64 - MAX_INT - 1
  }

  ghost predicate AllDigits(s: string) {
    forall i :: 0 <= i < |s| ==> IsDigit(s[i])
  }

  function DigitChar(d: nat): char
    requires d < 10
  {
    ('0' as int + d) as char
  }

  function Digits(n: nat): (s: string)
    ensures |s| >= 1 && AllDigits(s)
  {
    if n < 10 then [DigitChar(n)] else Digits(n / 10) + [DigitChar(n % 10)]
  }

  function Itoa(n: int): string {
    if n < 0 then "-" + Digits(-n) else Digits(n)
  }

  function DigitsValue(s: string): nat
    requires AllDigits(s)
  {
    if s == "" then 0 else 10 * DigitsValue(s[..|s| - 1]) + (s[|s| - 1] as int - '0' as int)
  }

  /** What `Sscanf` leaves in a variable that starts at zero: out-of-range numerals do not scan. */
  function Atoi(s: string): (n: nat)
    requires AllDigits(s)
    ensures n <= MAX_INT
  {
    if DigitsValue(s) <= MAX_INT then DigitsValue(s) else 0
  }

  lemma {:induction false} DigitsRoundTrip(n: nat)
    ensures DigitsValue(Digits(n)) == n
  {
    if n >= 10 {
      DigitsRoundTrip(n / 10);
      assert Digits(n)[..|Digits(n)| - 1] == Digits(n / 10);
    }
  }

  lemma AtoiItoa(n: nat)
    requires n <= MAX_INT
    ensures AllDigits(Itoa(n)) && Atoi(Itoa(n)) == n
  {
    DigitsRoundTrip(n);
  }

  /** The digit of the greatest place comes first, and leading zeros do not count. */
  lemma PlaceValue(s: string, d: char)
    requires AllDigits(s) && IsDigit(d)
    ensures AllDigits(s + [d]) && DigitsValue(s + [d]) == 10 * DigitsValue(s) + (d as int - 48)
    ensures Itoa(9075) == "9075" && Atoi("0042") == 42
  {
    assert (s + [d])[..|s|] == s;
    assert Digits(9075) == Digits(907) + ['5'] && Digits(907) == Digits(90) + ['7'] && Digits(90) == Digits(9) + ['0'];
    assert "0042"[..3] == "004" && "004"[..2] == "00" && "00"[..1] == "0" && "0"[..0] == "";
    assert DigitsValue("0") == 0 && DigitsValue("00") == 0 && DigitsValue("004") == 4;
  }

  /** A numeral beyond 64 bits reads as zero. */
  lemma OutOfRange(n: nat)
    requires n > MAX_INT
    ensures AllDigits(Itoa(n)) && Atoi(Itoa(n)) == 0
  {
    DigitsRoundTrip(n);
  }
}
