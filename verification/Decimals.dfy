/** Decimal text of natural numbers, as strconv prints and reads it. */
module Decimals {

  function DigitChar(d: nat): char
    requires d < 10
  {
    '0' + d as char
  }

  function DigitValue(c: char): nat
    requires IsDigit(c)
  {
    (c - '0') as nat
  }

  predicate IsDigit(c: char) { '0' <= c <= '9' }

  predicate Decimal(s: string) {
    s != "" && forall i | 0 <= i < |s| :: IsDigit(s[i])
  }

  /** The digits of n, without leading zeros. */
  function Format(n: nat): (s: string)
    ensures Decimal(s)
  {
    if n < 10 then [DigitChar(n)] else Format(n / 10) + [DigitChar(n % 10)]
  }

  function Value(s: string): nat
    requires forall i | 0 <= i < |s| :: IsDigit(s[i])
  {
    if s == "" then 0 else 10 * Value(s[..|s| - 1]) + DigitValue(s[|s| - 1])
  }

  lemma {:induction false} ValueOfFormat(n: nat)
    ensures Value(Format(n)) == n
  {
    if n >= 10 {
      ValueOfFormat(n / 10);
      var s := Format(n / 10);
      assert (s + [DigitChar(n % 10)])[..|s|] == s;
    }
  }

  function Trimmed(s: string): string {
    if |s| > 1 && s[0] == '0' then Trimmed(s[1..]) else s
  }

  lemma {:induction false} FormatValue(s: string)
    requires Decimal(s)
    ensures Format(Value(s)) == Trimmed(s)
    decreases |s|
  {
    if |s| > 1 && s[0] == '0' {
      FormatValue(s[1..]);
      LeadingZero(s);
    } else if |s| > 1 {
      var t := s[..|s| - 1];
      FormatValue(t);
      assert t[0] == s[0];
      assert Trimmed(t) == t;
      Positive(t);
      assert Value(s) / 10 == Value(t);
      assert Format(Value(s)) == t + [s[|s| - 1]];
    } else {
      assert Value(s[..0]) == 0;
    }
  }

  lemma {:induction false} LeadingZero(s: string)
    requires Decimal(s) && |s| > 1 && s[0] == '0'
    ensures Value(s) == Value(s[1..])
  {
    var t := s[..|s| - 1];
    assert s[1..][..|s| - 2] == t[1..];
    if |s| > 2 {
      LeadingZero(t);
    } else {
      assert t == "0" && Value(t[..0]) == 0 && t[1..] == "";
    }
  }

  lemma {:induction false} Positive(s: string)
    requires Decimal(s) && s[0] != '0'
    ensures Value(s) > 0
  {
    if |s| > 1 {
      Positive(s[..|s| - 1]);
    }
  }
}
