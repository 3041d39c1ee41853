// strconv.Itoa and strconv.Atoi on 64-bit ints, and the fact that they invert each other.
module Decimal {
  import opened Text

  const MAX_INT: int := 0x7FFF_FFFF_FFFF_FFFF
  const MIN_INT: int := -0x8000_0000_0000_0000

  predicate IsDigit(c: char)
  {
    '0' <= c <= '9'
  }

  predicate AllDigits(s: string)
  {
    forall i :: 0 <= i < |s| ==> IsDigit(s[i])
  }

  function Digit(n: nat): (c: char)
    requires n < 10
    ensures IsDigit(c) && c as int - '0' as int == n
  {
    ('0' as int + n) as char
  }

  function Digits(n: nat): (s: string)
    ensures |s| > 0 && AllDigits(s)
  {
    if n < 10 then [Digit(n)] else Digits(n / 10) + [Digit(n % 10)]
  }

  function Value(s: string): nat
    requires AllDigits(s)
  {
    if |s| == 0 then 0 else 10 * Value(s[..|s| - 1]) + (s[|s| - 1] as int - '0' as int)
  }

  function Itoa(n: int): (s: string)
  {
    if n < 0 then "-" + Digits(-n) else Digits(n)
  }

  // An optional sign, at least one digit, and a value that fits.
  function Atoi(s: string): Option<int>
  {
    var body := if |s| > 0 && (s[0] == '+' || s[0] == '-') then s[1..] else s;
    if |body| == 0 || !AllDigits(body) then None
    else
      var n := (if s[0] == '-' then -1 else 1) * Value(body);
      if MIN_INT <= n <= MAX_INT then Some(n) else None
  }

  lemma {:induction false} ValueOfDigits(n: nat)
    ensures Value(Digits(n)) == n
  {
    if n >= 10 {
      ValueOfDigits(n / 10);
      assert Digits(n)[..|Digits(n)| - 1] == Digits(n / 10);
    }
  }

  // Parsing what was printed gives the number back.
  lemma AtoiOfItoa(n: int)
    requires MIN_INT <= n <= MAX_INT
    ensures Atoi(Itoa(n)) == Some(n)
  {
    ValueOfDigits(if n < 0 then -n else n);
    assert n < 0 ==> Itoa(n)[1..] == Digits(-n);
  }

  lemma DigitsInjective(m: nat, n: nat)
    requires Digits(m) == Digits(n)
    ensures m == n
  {
    ValueOfDigits(m);
    ValueOfDigits(n);
  }

  // Printed numbers hold no line breaks.
  lemma ItoaChars(n: int)
    ensures |Itoa(n)| > 0 && forall i :: 0 <= i < |Itoa(n)| ==> IsDigit(Itoa(n)[i]) || Itoa(n)[i] == '-'
  {
  }
}
