// Decimal formatting of integers as `operator<<` on an output string stream
// writes them, and the zero-padded field `std::setw(4) << std::setfill('0')`.

module Decimal {

  function DigitChar(d: nat): char
    requires d < 10
  {
    "0123456789"[d]
  }

  predicate IsDigit(c: char)
  {
    '0' <= c <= '9'
  }

  predicate AllDigits(s: string)
  {
    forall i :: 0 <= i < |s| ==> IsDigit(s[i])
  }

  function DigitValue(c: char): nat
    requires IsDigit(c)
  {
    (c - '0') as nat
  }

  /** The decimal digits of `n`, most significant first, without leading zeros. */
  function NatToString(n: nat): (s: string)
    ensures |s| > 0
    ensures forall i :: 0 <= i < |s| ==> IsDigit(s[i])
    ensures n >= 10 <==> |s| > 1
    ensures |s| > 1 ==> s[0] != '0'
    decreases n
  {
    if n < 10 then [DigitChar(n)] else NatToString(n / 10) + [DigitChar(n % 10)]
  }

  /** Reads a string of decimal digits back into the number it writes. */
  function ParseDigits(s: string): nat
    requires AllDigits(s)
  {
    if s == [] then 0 else ParseDigits(s[..|s| - 1]) * 10 + DigitValue(s[|s| - 1])
  }

  /** Printing then reading a natural number gives it back. */
  lemma {:induction false} NatToStringRoundTrip(n: nat)
    ensures ParseDigits(NatToString(n)) == n
    decreases n
  {
    var s := NatToString(n);
    if n >= 10 {
      NatToStringRoundTrip(n / 10);
      assert s[..|s| - 1] == NatToString(n / 10);
    }
  }

  /** Distinct numbers print as distinct strings. */
  lemma NatToStringInjective(a: nat, b: nat)
    requires NatToString(a) == NatToString(b)
    ensures a == b
  {
    NatToStringRoundTrip(a);
    NatToStringRoundTrip(b);
  }

  /** An int as the stream writes it: a leading '-' for negative values. */
  function IntToString(n: int): (s: string)
    ensures |s| > 0
    ensures n >= 0 <==> s[0] != '-'
    ensures n < 0 ==> s == "-" + NatToString(-n)
    ensures n >= 0 ==> s == NatToString(n)
  {
    if n < 0 then "-" + NatToString(-n) else NatToString(n)
  }

  lemma IntToStringInjective(a: int, b: int)
    requires IntToString(a) == IntToString(b)
    ensures a == b
  {
    if a < 0 && b < 0 {
      assert IntToString(a)[1..] == NatToString(-a);
      assert IntToString(b)[1..] == NatToString(-b);
      NatToStringInjective(-a, -b);
    } else if a >= 0 && b >= 0 {
      NatToStringInjective(a, b);
    }
  }

  function Zeros(k: nat): (z: string)
    ensures |z| == k && forall i :: 0 <= i < k ==> z[i] == '0'
  {
    if k == 0 then "" else "0" + Zeros(k - 1)
  }

  /**
   * An int written into a field of width 4 filled with '0' and right-adjusted
   * (the default adjustment): the fill goes in front of the whole text,
   * sign included; longer texts are written in full.
   */
  function Pad4(n: int): (s: string)
    ensures |s| == if |IntToString(n)| < 4 then 4 else |IntToString(n)|
    ensures s[|s| - |IntToString(n)|..] == IntToString(n)
    ensures forall i :: 0 <= i < |s| - |IntToString(n)| ==> s[i] == '0'
  {
    var t := IntToString(n);
    if |t| < 4 then Zeros(4 - |t|) + t else t
  }

  /** For 0 <= n < 10000 the padded field is exactly four digits. */
  lemma Pad4FourDigits(n: nat)
    requires n < 10000
    ensures |Pad4(n)| == 4
    ensures forall i :: 0 <= i < 4 ==> IsDigit(Pad4(n)[i])
    ensures ParseDigits(Pad4(n)) == n
  {
    NatToStringLength(n);
    var t := NatToString(n);
    var s := Pad4(n);
    ParseDigitsLeadingZeros(s, 4 - |t|);
    assert s[4 - |t|..] == t;
    NatToStringRoundTrip(n);
  }

  lemma {:induction false} NatToStringLength(n: nat)
    ensures n < 10000 ==> |NatToString(n)| <= 4
    decreases n
  {
    if n >= 10 {
      NatToStringLength(n / 10);
    }
  }

  /** Leading zeros do not change the value of a digit string. */
  lemma {:induction false} ParseDigitsLeadingZeros(s: string, k: nat)
    requires k <= |s|
    requires forall i :: 0 <= i < |s| ==> IsDigit(s[i])
    requires forall i :: 0 <= i < k ==> s[i] == '0'
    ensures ParseDigits(s) == ParseDigits(s[k..])
    decreases |s|
  {
    if k < |s| {
      ParseDigitsLeadingZeros(s[..|s| - 1], k);
      assert s[..|s| - 1][k..] == s[k..][..|s[k..]| - 1];
    } else {
      ParseDigitsAllZeros(s);
      assert s[k..] == [];
    }
  }

  lemma {:induction false} ParseDigitsAllZeros(s: string)
    requires forall i :: 0 <= i < |s| ==> s[i] == '0'
    ensures forall i :: 0 <= i < |s| ==> IsDigit(s[i])
    ensures ParseDigits(s) == 0
    decreases |s|
  {
    if s != [] {
      ParseDigitsAllZeros(s[..|s| - 1]);
    }
  }

  /** The text after any leading '0' fill characters. */
  function StripZeros(s: string): (r: string)
    ensures |r| <= |s|
    ensures r != [] ==> r[0] != '0'
  {
    if s != [] && s[0] == '0' then StripZeros(s[1..]) else s
  }

  lemma {:induction false} StripZerosAfterFill(k: nat, t: string)
    ensures StripZeros(Zeros(k) + t) == StripZeros(t)
  {
    if k > 0 {
      var z := Zeros(k) + t;
      assert z[0] == '0';
      assert z[1..] == Zeros(k - 1) + t;
      StripZerosAfterFill(k - 1, t);
    } else {
      assert Zeros(k) + t == t;
    }
  }

  /** Reads a number back from its text: an optional '-' and digits. */
  function ReadInt(t: string): int
  {
    if t == [] then 0
    else if t[0] == '-' && AllDigits(t[1..]) then -(ParseDigits(t[1..]) as int)
    else if AllDigits(t) then ParseDigits(t)
    else 0
  }

  /** Reads a padded field back: strip the fill, then read the number. */
  function UnPad(s: string): int
  {
    ReadInt(StripZeros(s))
  }

  lemma ReadIntNegative(m: nat)
    requires m > 0
    ensures ReadInt("-" + NatToString(m)) == -(m as int)
  {
    var t := "-" + NatToString(m);
    assert t[1..] == NatToString(m);
    NatToStringRoundTrip(m);
  }

  lemma ReadIntNatural(m: nat)
    ensures ReadInt(NatToString(m)) == m
  {
    var t := NatToString(m);
    assert IsDigit(t[0]);
    NatToStringRoundTrip(m);
  }

  /** The padded field of any int reads back as that int. */
  lemma Pad4RoundTrip(n: int)
    ensures UnPad(Pad4(n)) == n
  {
    Pad4StripsToText(n);
    if n == 0 {
      assert IntToString(0) == "0";
      assert StripZeros("0") == StripZeros("");
    } else if n < 0 {
      ReadIntNegative(-n);
    } else {
      ReadIntNatural(n);
    }
  }

  /** Stripping the fill of a padded field gives the unpadded text (no leading '0' but for 0). */
  lemma Pad4StripsToText(n: int)
    ensures StripZeros(Pad4(n)) == StripZeros(IntToString(n))
    ensures n != 0 ==> StripZeros(IntToString(n)) == IntToString(n)
  {
    var t := IntToString(n);
    if |t| < 4 {
      StripZerosAfterFill(4 - |t|, t);
    }
    if n > 0 {
      assert n < 10 ==> t[0] == DigitChar(n);
    }
  }

  /** Distinct frame indices give distinct padded fields. */
  lemma Pad4Injective(a: int, b: int)
    requires Pad4(a) == Pad4(b)
    ensures a == b
  {
    Pad4RoundTrip(a);
    Pad4RoundTrip(b);
  }
}
