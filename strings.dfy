/** The JavaScript conversions between numbers and text that the builder relies on,
    on integers: `String(n)`, `s.padStart(3, '0')`, `Number(s)` and the idiom
    `Number(x) || fallback`. */
module Strings {
  import opened Types

  predicate IsDigit(c: char) { '0' <= c <= '9' }

  predicate AllDigits(s: string) { forall i :: 0 <= i < |s| ==> IsDigit(s[i]) }

  function DigitChar(d: nat): (c: char)
    requires d < 10
    ensures IsDigit(c) && c as int - '0' as int == d
  {
    ('0' as int + d) as char
  }

  /** `String(n)` for a natural number: its decimal digits, most significant first. */
  function Decimal(n: nat): (s: string)
    ensures |s| >= 1 && AllDigits(s)
    decreases n
  {
    if n < 10 then [DigitChar(n)] else Decimal(n / 10) + [DigitChar(n % 10)]
  }

  /** The value of a string of decimal digits (the empty string is 0). */
  function DigitsValue(s: string): nat
    requires AllDigits(s)
  {
    if s == [] then 0 else DigitsValue(s[..|s| - 1]) * 10 + (s[|s| - 1] as int - '0' as int)
  }

  /** `String(n)` for any integer. */
  function IntText(n: int): string
  {
    if n < 0 then "-" + Decimal(-n) else Decimal(n)
  }

  /** Reading back the digits `String(n)` writes gives `n`. */
  lemma {:induction false} DecimalValue(n: nat)
    ensures DigitsValue(Decimal(n)) == n
  {
    if n >= 10 {
      var s := Decimal(n);
      assert s[..|s| - 1] == Decimal(n / 10);
      DecimalValue(n / 10);
    }
  }

  /** `String(n)` has at most three digits exactly when `n` is at most 999. */
  lemma DecimalAtMostThreeDigits(n: nat)
    ensures |Decimal(n)| <= 3 <==> n <= 999
  {
    if n >= 10 {
      assert |Decimal(n)| == |Decimal(n / 10)| + 1;
      if n / 10 >= 10 {
        assert |Decimal(n / 10)| == |Decimal(n / 10 / 10)| + 1;
        if n / 10 / 10 >= 10 {
          assert |Decimal(n / 10 / 10)| == |Decimal(n / 10 / 10 / 10)| + 1;
        }
      }
    }
  }

  /** `k` zero digits. */
  function Zeros(k: nat): (z: string)
    ensures |z| == k && forall i :: 0 <= i < k ==> z[i] == '0'
  {
    if k == 0 then [] else "0" + Zeros(k - 1)
  }

  /** `s.padStart(3, '0')`: the string itself when it has three characters or more,
      otherwise `s` preceded by as many zeros as make it three long. */
  function PadStart3(s: string): (r: string)
    ensures |r| == if |s| < 3 then 3 else |s|
    ensures r[|r| - |s|..] == s
    ensures forall i :: 0 <= i < |r| - |s| ==> r[i] == '0'
  {
    if |s| >= 3 then s else Zeros(3 - |s|) + s
  }

  lemma {:induction false} LeadingZeroValue(s: string)
    requires AllDigits(s)
    ensures AllDigits("0" + s) && DigitsValue("0" + s) == DigitsValue(s)
  {
    if s != [] {
      var t := "0" + s;
      assert t[..|t| - 1] == "0" + s[..|s| - 1];
      LeadingZeroValue(s[..|s| - 1]);
    }
  }

  lemma {:induction false} LeadingZerosValue(k: nat, s: string)
    requires AllDigits(s)
    ensures AllDigits(Zeros(k) + s)
    ensures DigitsValue(Zeros(k) + s) == DigitsValue(s)
  {
    if k > 0 {
      LeadingZerosValue(k - 1, s);
      var t := Zeros(k - 1) + s;
      assert Zeros(k) + s == "0" + t;
      LeadingZeroValue(t);
    } else {
      assert Zeros(k) + s == s;
    }
  }

  /** Zero padding keeps a digit string's value. */
  lemma PadStart3Value(s: string)
    requires AllDigits(s)
    ensures AllDigits(PadStart3(s)) && DigitsValue(PadStart3(s)) == DigitsValue(s)
  {
    if |s| < 3 {
      LeadingZerosValue(3 - |s|, s);
    }
  }

  /** `Number(s)` on the texts this model covers: an optional sign followed by
      decimal digits; the empty text is 0, as in JavaScript; anything else is
      `NaN`, here `None`. */
  function ParseNumber(s: string): Option<int>
  {
    if s == [] then Some(0)
    else if s[0] == '-' && |s| > 1 && AllDigits(s[1..]) then Some(0 - DigitsValue(s[1..]) as int)
    else if s[0] == '+' && |s| > 1 && AllDigits(s[1..]) then Some(DigitsValue(s[1..]))
    else if AllDigits(s) then Some(DigitsValue(s))
    else None
  }

  /** `Number` reads a run of decimal digits back as the value it was written from. */
  lemma ParseDecimal(n: nat)
    ensures ParseNumber(Decimal(n)) == Some(n)
  {
    var s := Decimal(n);
    assert IsDigit(s[0]);
    DecimalValue(n);
  }

  /** ... and a minus sign followed by them as the negated value. */
  lemma ParseNegated(n: nat)
    ensures ParseNumber("-" + Decimal(n)) == Some(-(n as int))
  {
    var s := "-" + Decimal(n);
    assert s[0] == '-' && s[1..] == Decimal(n);
    DecimalValue(n);
  }

  /** `Number(String(n)) === n` for every integer. */
  lemma ParseIntText(n: int)
    ensures ParseNumber(IntText(n)) == Some(n)
  {
    if n < 0 {
      ParseNegated(-n);
    } else {
      ParseDecimal(n);
    }
  }

  /** `Number(d)` for a width or a height. */
  function NumberOf(d: Dim): Option<int>
  {
    match d
    case Num(n) => Some(n)
    case Str(s) => ParseNumber(s)
  }

  /** `Number(d) || fallback`: the number `d` stands for, unless that is `NaN` or 0. */
  function NumberOr(d: Dim, fallback: int): (r: int)
    ensures r == fallback || (r != 0 && NumberOf(d) == Some(r))
    ensures NumberOf(d) == None || NumberOf(d) == Some(0) ==> r == fallback
    ensures NumberOf(d).Some? && NumberOf(d).value != 0 ==> r == NumberOf(d).value
  {
    match NumberOf(d)
    case Some(n) => if n != 0 then n else fallback
    case None => fallback
  }

  /** The CSS strings the builder uses are not numbers, so they fall back. */
  lemma CssStringsFallBack(fallback: int)
    ensures NumberOr(Str("100%"), fallback) == fallback
    ensures NumberOr(Str("auto"), fallback) == fallback
    ensures NumberOr(Num(0), fallback) == fallback
  {
    assert !IsDigit('%') && "100%"[3] == '%';
    assert !IsDigit('a') && "auto"[0] == 'a';
  }
}
