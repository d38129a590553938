/** Decimal numerals, and the integers that Python's `int` reads from text. */
module Decimal {
  import opened Options

  predicate IsDigit(c: char) {
    '0' <= c <= '9'
  }

  predicate AllDigits(s: string) {
    forall i | 0 <= i < |s| :: IsDigit(s[i])
  }

  function DigitValue(c: char): (d: nat)
    requires IsDigit(c)
    ensures d < 10
  {
    c as int - '0' as int
  }

  function DigitChar(d: nat): (c: char)
    requires d < 10
    ensures IsDigit(c) && DigitValue(c) == d
  {
    ('0' as int + d) as char
  }

  function Value(s: string): nat
    requires AllDigits(s)
  {
    if s == [] then 0 else 10 * Value(s[..|s| - 1]) + DigitValue(s[|s| - 1])
  }

  /** `str(n)`. */
  function Digits(n: nat): (s: string)
    ensures AllDigits(s) && s != []
  {
    if n < 10 then [DigitChar(n)] else Digits(n / 10) + [DigitChar(n % 10)]
  }

  lemma {:induction false} DigitsRoundTrip(n: nat)
    ensures Value(Digits(n)) == n
  {
    if n >= 10 {
      DigitsRoundTrip(n / 10);
      var s := Digits(n);
      assert s[..|s| - 1] == Digits(n / 10);
    } else {
      assert Digits(n)[..0] == [];
    }
  }

  function Power10(k: nat): nat {
    if k == 0 then 1 else 10 * Power10(k - 1)
  }

  /** A number fits into `k` digits exactly when it is below the power of ten. */
  lemma {:induction false} DigitsLength(n: nat, k: nat)
    requires k > 0
    ensures |Digits(n)| <= k <==> n < Power10(k)
  {
    if n >= 10 {
      if k > 1 {
        DigitsLength(n / 10, k - 1);
      } else {
        assert Power10(1) == 10 * Power10(0);
      }
    } else {
      Power10Grows(k);
    }
  }

  lemma {:induction false} Power10Grows(k: nat)
    requires k > 0
    ensures Power10(k) >= 10
  {
    if k == 1 {
      assert Power10(1) == 10 * Power10(0);
    } else {
      Power10Grows(k - 1);
    }
  }

  /** Digits, with single underscores allowed between them. */
  predicate IsNumeral(s: string) {
    && s != [] && IsDigit(s[0]) && IsDigit(s[|s| - 1])
    && (forall i | 0 <= i < |s| :: IsDigit(s[i]) || s[i] == '_')
    && (forall i | 0 < i < |s| :: s[i - 1] == '_' ==> s[i] != '_')
  }

  function DropUnderscores(s: string): (t: string)
    requires forall i | 0 <= i < |s| :: IsDigit(s[i]) || s[i] == '_'
    ensures AllDigits(t)
    ensures AllDigits(s) ==> t == s
  {
    if s == [] then []
    else if s[0] == '_' then DropUnderscores(s[1..]) else [s[0]] + DropUnderscores(s[1..])
  }

  /** `int` on stripped ASCII text; nothing when it raises. */
  function PyInt(s: string): Option<int> {
    var signed := s != [] && (s[0] == '+' || s[0] == '-');
    var body := if signed then s[1..] else s;
    if !IsNumeral(body) then None
    else
      var n: int := Value(DropUnderscores(body));
      Some(if signed && s[0] == '-' then -n else n)
  }

  lemma PyIntOfDigits(s: string)
    requires AllDigits(s) && s != []
    ensures PyInt(s) == Some(Value(s))
  {
  }
}
