/**
 * The parts of Go's `strconv` package the webcam code calls: `Atoi` on a 64-bit
 * platform, and `Itoa`.
 */
module GoStrconv {
  import opened Wrappers

  const MaxInt64: int := 0x7FFF_FFFF_FFFF_FFFF
  const MinInt64: int := -0x8000_0000_0000_0000

  /** The values of Go's `int64`, which is also `int` on a 64-bit platform. */
  predicate InInt64(x: int) {
    MinInt64 <= x <= MaxInt64
  }

  predicate IsDigit(c: char) {
    '0' <= c <= '9'
  }

  predicate AllDigits(s: string) {
    forall i :: 0 <= i < |s| ==> IsDigit(s[i])
  }

  function DigitValue(c: char): (d: nat)
    requires IsDigit(c)
    ensures d < 10
  {
    (c as int) - ('0' as int)
  }

  function DigitChar(d: nat): (c: char)
    requires d < 10
    ensures IsDigit(c) && DigitValue(c) == d
  {
    (('0' as int) + d) as char
  }

  /** The number a string of decimal digits denotes. */
  function DecimalValue(s: string): nat
    requires AllDigits(s)
    decreases |s|
  {
    if |s| == 0 then 0 else DecimalValue(s[..|s| - 1]) * 10 + DigitValue(s[|s| - 1])
  }

  /**
   * `strconv.Atoi`: an optional `+` or `-`, then at least one decimal digit and nothing
   * else, denoting a value that fits in 64 bits. The kind of error Go reports (syntax or
   * range) is not kept: every caller here only tests whether there was one.
   */
  function Atoi(s: string): (r: Option<int>)
    ensures r.Some? ==> InInt64(r.value)
    ensures r.Some? ==> |s| > 0
  {
    var signed := |s| > 0 && (s[0] == '-' || s[0] == '+');
    var digits := if signed then s[1..] else s;
    if |digits| == 0 || !AllDigits(digits) then None
    else
      var v: int := if |s| > 0 && s[0] == '-' then -(DecimalValue(digits) as int) else DecimalValue(digits);
      if InInt64(v) then Some(v) else None
  }

  /** The decimal digits of `n`, without leading zeros. */
  function NatString(n: nat): (s: string)
    ensures |s| > 0 && AllDigits(s)
    decreases n
  {
    if n < 10 then [DigitChar(n)] else NatString(n / 10) + [DigitChar(n % 10)]
  }

  /** `strconv.Itoa`: a minus sign for negative numbers, then the digits. */
  function Itoa(n: int): (s: string)
    ensures |s| > 0 && (s[0] == '-' <==> n < 0)
    ensures AllDigits(if n < 0 then s[1..] else s)
  {
    if n < 0 then "-" + NatString(-n) else NatString(n)
  }

  lemma {:induction false} NatStringValue(n: nat)
    ensures DecimalValue(NatString(n)) == n
    decreases n
  {
    if n >= 10 {
      var s := NatString(n);
      NatStringValue(n / 10);
      assert s[..|s| - 1] == NatString(n / 10);
    }
  }

  /** `Itoa` writes no superfluous leading zero. */
  lemma {:induction false} NatStringCanonical(n: nat)
    ensures |NatString(n)| > 1 ==> NatString(n)[0] != '0'
    ensures NatString(n)[0] == '0' ==> n == 0
    decreases n
  {
    if n >= 10 {
      NatStringCanonical(n / 10);
    }
  }

  /** `Atoi` reads back every 64-bit integer `Itoa` writes. */
  lemma AtoiItoa(n: int)
    requires InInt64(n)
    ensures Atoi(Itoa(n)) == Some(n)
  {
    if n < 0 {
      var s := Itoa(n);
      NatStringValue(-n);
      assert s == "-" + NatString(-n) && s[0] == '-';
      assert s[1..] == NatString(-n);
      assert -(DecimalValue(s[1..]) as int) == n;
    } else {
      NatStringValue(n);
      assert !(NatString(n)[0] == '-' || NatString(n)[0] == '+');
    }
  }

  /** `Itoa` writes what `Atoi` read only for canonical input: `05` reads as 5, which writes as `5`. */
  lemma AtoiAcceptsLeadingZeros()
    ensures Atoi("05") == Some(5) && Itoa(5) == "5"
    ensures Atoi("+5") == Some(5)
  {
    assert DecimalValue("05") == 5 by {
      assert "05"[..1] == "0";
    }
    assert "+5"[1..] == "5";
  }
}
