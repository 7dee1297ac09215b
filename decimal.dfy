/**
 * Decimal text of an integer as Go's strconv.Itoa writes it: an optional
 * '-' and the digits, most significant first, with no leading zero.
 */
module Decimal {
  import opened Wrappers
  import opened Octets

  const Minus: byte := 0x2d

  predicate IsDigit(c: byte)
  {
    0x30 <= c <= 0x39
  }

  predicate AllDigits(s: Bytes)
  {
    forall i :: 0 <= i < |s| ==> IsDigit(s[i])
  }

  /** The digits of a natural number. */
  function Digits(n: nat): (s: Bytes)
    ensures |s| >= 1 && AllDigits(s)
    ensures |s| > 1 ==> s[0] != 0x30
    decreases n
  {
    if n < 10 then [(0x30 + n) as byte] else Digits(n / 10) + [(0x30 + n % 10) as byte]
  }

  function Itoa(n: int): (s: Bytes)
  {
    if n < 0 then [Minus] + Digits(-n) else Digits(n)
  }

  /** The number a digit string denotes. */
  function Value(s: Bytes): nat
    requires AllDigits(s)
    decreases |s|
  {
    if s == [] then 0 else 10 * Value(s[..|s| - 1]) + (s[|s| - 1] as int - 0x30)
  }

  /** Reading decimal text back: an optional '-' followed by at least one digit. */
  function Atoi(s: Bytes): Option<int>
  {
    if |s| > 1 && s[0] == Minus && AllDigits(s[1..]) then Some(0 - Value(s[1..]) as int)
    else if |s| > 0 && AllDigits(s) then Some(Value(s))
    else None
  }

  lemma {:induction false} ValueDigits(n: nat)
    ensures Value(Digits(n)) == n
    decreases n
  {
    if n >= 10 {
      ValueDigits(n / 10);
      var s := Digits(n);
      assert s[..|s| - 1] == Digits(n / 10);
    }
  }

  /** Itoa loses nothing: its text reads back as the same integer. */
  lemma ItoaRoundTrip(n: int)
    ensures Atoi(Itoa(n)) == Some(n)
  {
    if n < 0 {
      ValueDigits(-n);
      assert Itoa(n)[1..] == Digits(-n);
    } else {
      ValueDigits(n);
    }
  }
}
