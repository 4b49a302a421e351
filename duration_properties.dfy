/** What `time.ParseDuration` makes of typical duration texts. */
module DurationProperties {
  import opened Wrappers
  import opened GoStrconv
  import opened GoTime

  lemma Product(x: nat, y: nat) returns (p: nat)
    ensures p == x * y
  {
    p := x * y;
  }

  /** A whole number with a unit denotes that many units, whenever the product fits. */
  lemma ParseDurationOfUnit(n: nat, u: string, unit: nat)
    requires UnitValue(u) == Some(unit) && n * unit <= MaxInt64
    ensures ParseDuration(NatString(n) + u) == Some(n * unit)
  {
    var a := Product(n, unit);
    var s := NatString(n) + u;
    assert Components(s, 0) == Some(a) by {
      ComponentsOfOne(n, u, 0, unit, a, a);
    }
    assert |s| > 1 && IsDigit(s[0]) by {
      UnitNameChars(u);
      assert s[0] == NatString(n)[0];
    }
    ParseUnsigned(s, a);
  }

  /** With a leading `-` the same text denotes the negated duration, down to -2^63. */
  lemma ParseNegativeDurationOfUnit(n: nat, u: string, unit: nat)
    requires UnitValue(u) == Some(unit) && n * unit <= TwoTo63
    ensures ParseDuration("-" + NatString(n) + u) == Some(-(n * unit))
  {
    var a := Product(n, unit);
    var s := "-" + NatString(n) + u;
    var body := NatString(n) + u;
    assert Components(body, 0) == Some(a) by {
      ComponentsOfOne(n, u, 0, unit, a, a);
    }
    assert s[0] == '-' && s[1..] == body;
    assert body != "0" && body != "" by {
      UnitNameChars(u);
    }
    assert ParseDuration(s) == Some(-(a as int));
  }

  /** A lone `0` needs no unit; text that does not start with a number is rejected. */
  lemma ParseDurationSpecialCases()
    ensures ParseDuration("0") == Some(0)
    ensures ParseDuration("-0") == Some(0)
    ensures ParseDuration("") == None
    ensures ParseDuration("hahaha") == None
    ensures ParseDuration("10") == None
  {
    assert "-0"[1..] == "0";
    var s := "10";
    assert DigitRun(s) == 2 by {
      assert s[1..] == "0";
      assert DigitRun(s[1..][1..]) == 0;
    }
    assert s[2..] == "";
  }
}
