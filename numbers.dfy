/**
  Decimal formatting as Python's `f"{n:02d}"` does it, and the simplified integer parser
  used for the course-number prompt. Each is the other's inverse.
*/
module Numbers {
  import opened Wrappers

  predicate IsDigit(c: char) { '0' <= c <= '9' }

  predicate AllDigits(s: string) { forall i :: 0 <= i < |s| ==> IsDigit(s[i]) }

  function DigitChar(d: nat): (c: char)
    requires d < 10
    ensures IsDigit(c)
  {
    '0' + d as char
  }

  function DigitValue(c: char): (d: nat)
    requires IsDigit(c)
    ensures d < 10 && DigitChar(d) == c
  {
    (c - '0') as nat
  }

  /** The decimal digits of `n`, most significant first, with no leading zero. */
  function Decimal(n: nat): (r: string)
    ensures |r| > 0 && AllDigits(r)
    ensures n < 10 <==> |r| == 1
    ensures n < 100 ==> |r| <= 2
    ensures |r| > 1 ==> r[0] != '0'
    decreases n
  {
    if n < 10 then [DigitChar(n)] else Decimal(n / 10) + [DigitChar(n % 10)]
  }

  /** The value of a digit string read left to right (leading zeros allowed). */
  function DigitsValue(s: string): (v: nat)
    requires AllDigits(s)
  {
    if s == [] then 0 else DigitsValue(s[..|s| - 1]) * 10 + DigitValue(s[|s| - 1])
  }

  lemma {:induction false} DigitsValueDecimal(n: nat)
    ensures DigitsValue(Decimal(n)) == n
    decreases n
  {
    if n >= 10 {
      var r := Decimal(n);
      assert r[..|r| - 1] == Decimal(n / 10);
      DigitsValueDecimal(n / 10);
    }
  }

  /**
    `f"{n:02d}"`: at least two characters, zero-padded on the left; a negative number
    already has two characters once its sign is counted, so it is never padded.
  */
  function Format02(n: int): (r: string)
    ensures |r| >= 2
    ensures 0 <= n < 100 ==> |r| == 2
    ensures n >= 0 <==> AllDigits(r)
    ensures n < 0 ==> r[0] == '-' && AllDigits(r[1..])
  {
    if n < 0 then
      var r := "-" + Decimal(-n);
      assert !IsDigit(r[0]) && r[1..] == Decimal(-n);
      r
    else if n < 10 then ['0', DigitChar(n)]
    else Decimal(n)
  }

  /**
    Simplified Python `int()` on an already stripped string: an optional sign followed by
    one or more ASCII digits. Underscores between digits and non-ASCII digits, which
    Python also accepts, are rejected here.
  */
  function ParseInt(s: string): (r: Option<int>)
    ensures r.Some? ==> |s| > 0
    ensures AllDigits(s) && |s| > 0 ==> r == Some(DigitsValue(s))
    ensures r.Some? <==>
      (|s| > 0 && AllDigits(s)) ||
      (|s| > 1 && (s[0] == '+' || s[0] == '-') && AllDigits(s[1..]))
  {
    if |s| > 0 && AllDigits(s) then Some(DigitsValue(s))
    else if |s| > 1 && s[0] == '+' && AllDigits(s[1..]) then Some(DigitsValue(s[1..]))
    else if |s| > 1 && s[0] == '-' && AllDigits(s[1..]) then
      var v: int := DigitsValue(s[1..]);
      Some(-v)
    else None
  }

  /** Parsing what `Format02` printed gives the number back, for every integer. */
  lemma Format02RoundTrip(n: int)
    ensures ParseInt(Format02(n)) == Some(n)
  {
    if n < 0 {
      NegativeRoundTrip(n);
    } else if n < 10 {
      PaddedRoundTrip(n);
    } else {
      DigitsValueDecimal(n);
    }
  }

  lemma NegativeRoundTrip(n: int)
    requires n < 0
    ensures ParseInt(Format02(n)) == Some(n)
  {
    var d := Decimal(-n);
    var r := "-" + d;
    assert Format02(n) == r;
    assert r[1..] == d && !IsDigit(r[0]);
    DigitsValueDecimal(-n);
  }

  lemma PaddedRoundTrip(n: int)
    requires 0 <= n < 10
    ensures ParseInt(Format02(n)) == Some(n)
  {
    var r := ['0', DigitChar(n)];
    assert Format02(n) == r;
    assert r[..1] == ['0'] && ['0'][..0] == [];
    assert DigitsValue(r) == DigitsValue(['0']) * 10 + n;
  }

  /** Distinct numbers print differently. */
  lemma Format02Injective(m: int, n: int)
    requires Format02(m) == Format02(n)
    ensures m == n
  {
    Format02RoundTrip(m);
    Format02RoundTrip(n);
  }
}
