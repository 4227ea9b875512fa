/** Whole numbers as decimal text, and hex digits. */
module Numerals {

  function DigitOf(d: int): char
    requires 0 <= d < 10
  {
    ('0' as int + d) as char
  }

  function Digits(n: nat): string {
    (if n < 10 then "" else Digits(n / 10)) + [DigitOf(n % 10)]
  }

  function Decimal(n: int): string {
    if n < 0 then "-" + Digits(-n) else Digits(n)
  }

  predicate Hex(c: char) {
    '0' <= c <= '9' || 'a' <= c <= 'f' || 'A' <= c <= 'F'
  }

  function HexValue(c: char): nat
    requires Hex(c)
  {
    if c <= '9' then c as int - '0' as int
    else if c <= 'F' then c as int - 'A' as int + 10
    else c as int - 'a' as int + 10
  }

  lemma {:induction false} DigitsDiffer(a: nat, b: nat)
    requires Digits(a) == Digits(b)
    ensures a == b
    decreases a
  {
    var s, t := Digits(a), Digits(b);
    assert s[|s| - 1] as int - '0' as int == a % 10 && t[|t| - 1] as int - '0' as int == b % 10;
    DigitsAreSome(a / 10);
    DigitsAreSome(b / 10);
    assert s[..|s| - 1] == if a < 10 then "" else Digits(a / 10);
    assert t[..|t| - 1] == if b < 10 then "" else Digits(b / 10);
    if a >= 10 && b >= 10 {
      DigitsDiffer(a / 10, b / 10);
    }
  }

  lemma DigitsAreSome(n: nat)
    ensures Digits(n) != ""
  {
  }
}
