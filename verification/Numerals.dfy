/** Numbers as fmt prints them: "%d" in the seatbelt parameter keys, "%06x" in the job identifiers. */
module Numerals {
  datatype Radix = Decimal | Hex {
    function Up(n: nat, digit: nat): (r: nat)
    {
      match this
      case Decimal => n * 10 + digit
      case Hex => n * 16 + digit
    }

    function Quotient(n: nat): nat {
      match this
      case Decimal => n / 10
      case Hex => n / 16
    }

    function LastDigit(n: nat): (d: nat)
      ensures d < 16
    {
      match this
      case Decimal => n % 10
      case Hex => n % 16
    }
  }

  function DigitChar(d: nat): char
    requires d < 16
  {
    "0123456789abcdef"[d]
  }

  function DigitValue(c: char): nat {
    if '0' <= c <= '9' then (c - '0') as nat
    else if 'a' <= c <= 'f' then (c - 'a') as nat + 10
    else 0
  }

  predicate IsDigit(c: char) {
    '0' <= c <= '9' || 'a' <= c <= 'f'
  }

  /** Most significant digit first, no leading zeros. */
  function Print(n: nat, radix: Radix): (s: string)
    ensures s != "" && forall i | 0 <= i < |s| :: IsDigit(s[i])
    decreases n
  {
    var last := [DigitChar(radix.LastDigit(n))];
    var rest := radix.Quotient(n);
    if rest == 0 then last else Print(rest, radix) + last
  }

  function Parse(s: string, radix: Radix): nat {
    if s == "" then 0 else radix.Up(Parse(s[..|s| - 1], radix), DigitValue(s[|s| - 1]))
  }

  function ZeroPad(s: string, width: nat): (p: string)
    ensures |p| >= |s|
    decreases width - |s|
  {
    if |s| >= width then s else ZeroPad("0" + s, width)
  }

  lemma DigitRoundTrip(d: nat)
    requires d < 16
    ensures DigitValue(DigitChar(d)) == d
  {
  }

  lemma {:induction false} ParsePrint(n: nat, radix: Radix)
    ensures Parse(Print(n, radix), radix) == n
    decreases n
  {
    var rest := radix.Quotient(n);
    var s := Print(n, radix);
    assert radix.Up(rest, radix.LastDigit(n)) == n;
    DigitRoundTrip(radix.LastDigit(n));
    if rest == 0 {
      assert s[..|s| - 1] == "";
    } else {
      ParsePrint(rest, radix);
      assert s[..|s| - 1] == Print(rest, radix);
    }
  }

  lemma {:induction false} ParseLeadingZero(s: string, radix: Radix)
    ensures Parse("0" + s, radix) == Parse(s, radix)
    decreases |s|
  {
    var p := "0" + s;
    if s == "" {
      assert p[..|p| - 1] == "";
    } else {
      ParseLeadingZero(s[..|s| - 1], radix);
      assert p[..|p| - 1] == "0" + s[..|s| - 1];
    }
  }

  lemma {:induction false} ParseZeroPad(s: string, width: nat, radix: Radix)
    ensures Parse(ZeroPad(s, width), radix) == Parse(s, radix)
    decreases width - |s|
  {
    if |s| < width {
      ParseZeroPad("0" + s, width, radix);
      ParseLeadingZero(s, radix);
    }
  }

  lemma {:induction false} ZeroPadLength(s: string, width: nat)
    ensures |ZeroPad(s, width)| == if |s| >= width then |s| else width
    ensures |s| >= width ==> ZeroPad(s, width) == s
    decreases width - |s|
  {
    if |s| < width {
      ZeroPadLength("0" + s, width);
    }
  }

  /** Two numbers that print alike are equal. */
  lemma PrintInjective(m: nat, n: nat, radix: Radix)
    ensures Print(m, radix) == Print(n, radix) <==> m == n
  {
    ParsePrint(m, radix);
    ParsePrint(n, radix);
  }
}
