/** Decimal notation, as fmt's %d and strconv.Itoa print it. */
module Decimal {
  import opened Wrappers

  predicate IsDigit(c: char) {
    '0' <= c <= '9'
  }

  function Digits(n: nat): (s: string)
    ensures s != "" && forall i :: 0 <= i < |s| ==> IsDigit(s[i])
  {
    if n < 10 then ['0' + n as char] else Digits(n / 10) + ['0' + (n % 10) as char]
  }

  function Itoa(n: int): string {
    if n < 0 then "-" + Digits(-n) else Digits(n)
  }

  function ParseDigits(s: string): Option<nat> {
    if s == "" || !IsDigit(s[|s| - 1]) then None else
    var d := (s[|s| - 1] - '0') as nat;
    if |s| == 1 then Some(d) else
    match ParseDigits(s[..|s| - 1])
    case None => None
    case Some(n) => Some(10 * n + d)
  }

  function Atoi(s: string): Option<int> {
    if s != "" && s[0] == '-' then
      match ParseDigits(s[1..])
      case None => None
      case Some(n) => Some(0 - n)
    else
      match ParseDigits(s)
      case None => None
      case Some(n) => Some(n)
  }

  lemma {:induction false} ParseDigitsOf(n: nat)
    ensures ParseDigits(Digits(n)) == Some(n)
  {
    var s := Digits(n);
    if n >= 10 {
      ParseDigitsOf(n / 10);
      assert s[..|s| - 1] == Digits(n / 10);
    }
  }

  lemma Minus(digits: string)
    ensures ("-" + digits)[0] == '-' && ("-" + digits)[1..] == digits
  {
  }

  lemma AtoiItoa(n: int)
    ensures Atoi(Itoa(n)) == Some(n)
  {
    if n < 0 {
      ParseDigitsOf(-n);
      Minus(Digits(-n));
    } else {
      ParseDigitsOf(n);
      assert IsDigit(Digits(n)[0]);
    }
  }

  /** No leading zeros, and a minus sign exactly for negative numbers. */
  lemma ItoaShortest(n: int)
    ensures n < 0 <==> Itoa(n)[0] == '-'
    ensures var digits := if n < 0 then Itoa(n)[1..] else Itoa(n); digits != "" && (digits[0] == '0' <==> n == 0)
  {
    if n < 0 {
      Minus(Digits(-n));
      FirstDigit(-n);
    } else {
      FirstDigit(n);
    }
  }

  lemma {:induction false} FirstDigit(n: nat)
    ensures Digits(n)[0] == '0' <==> n == 0
  {
    if n >= 10 {
      FirstDigit(n / 10);
      assert Digits(n)[0] == Digits(n / 10)[0];
    }
  }

  lemma ItoaChars(n: int)
    ensures Itoa(n) != "" && forall i :: 0 <= i < |Itoa(n)| ==> IsDigit(Itoa(n)[i]) || Itoa(n)[i] == '-'
  {
  }
}
