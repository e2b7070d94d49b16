/**
 * Decimal text of an integer, as fmt's %d verb writes it: a '-' before a
 * negative number, no leading zeros. Parse is the reverse direction.
 */
module Decimal {
  import opened Wrappers

  predicate IsDigit(c: char)
  {
    '0' <= c <= '9'
  }

  function DigitChar(d: int): char
    requires 0 <= d < 10
  {
    ('0' as int + d) as char
  }

  /** The digits of n, most significant first. */
  function NatText(n: nat): (s: string)
    ensures |s| > 0 && forall i | 0 <= i < |s| :: IsDigit(s[i])
    ensures |s| > 1 ==> s[0] != '0'
    decreases n
  {
    if n < 10 then [DigitChar(n)] else NatText(n / 10) + [DigitChar(n % 10)]
  }

  /** %d applied to n. */
  function Text(n: int): (s: string)
    ensures |s| > 0
    ensures s[0] == '-' <==> n < 0
  {
    if n < 0 then "-" + NatText(-n) else NatText(n)
  }

  /** The value of a string of digits. */
  function ParseDigits(s: string): nat
    requires forall i | 0 <= i < |s| :: IsDigit(s[i])
    decreases |s|
  {
    if s == [] then 0
    else
      assert IsDigit(s[|s| - 1]);
      ParseDigits(s[..|s| - 1]) * 10 + (s[|s| - 1] as int - '0' as int)
  }

  /** The value of an optional '-' followed by digits; None for anything else. */
  function Parse(s: string): Option<int>
  {
    if |s| > 0 && s[0] == '-' then
      if |s| > 1 && forall i | 1 <= i < |s| :: IsDigit(s[i]) then
        var v := 0 - ParseDigits(s[1..]) as int;
        Some(v)
      else None
    else if |s| > 0 && forall i | 0 <= i < |s| :: IsDigit(s[i]) then Some(ParseDigits(s))
    else None
  }

  lemma {:induction false} ParseNatText(n: nat)
    ensures ParseDigits(NatText(n)) == n
    decreases n
  {
    if n >= 10 {
      var s := NatText(n);
      assert s[..|s| - 1] == NatText(n / 10);
      ParseNatText(n / 10);
    }
  }

  /** Reading back the text of any integer gives that integer. */
  lemma ParseText(n: int)
    ensures Parse(Text(n)) == Some(n)
  {
    if n < 0 {
      assert Text(n)[1..] == NatText(-n);
      ParseNatText(-n);
    } else {
      ParseNatText(n);
    }
  }
}
