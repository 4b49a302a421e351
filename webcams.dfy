/**
 * The configured webcams (webcam.go) and how their two duration settings are read:
 * a bare integer is a number of seconds, anything else goes through `time.ParseDuration`,
 * and text neither accepts reads as zero.
 */
module Webcams {
  import opened Wrappers
  import opened GoStrconv
  import opened GoTime
  import opened DurationProperties

  /** A webcam as configured; its position (two floats) plays no part here. */
  datatype Webcam = Webcam(id: int, name: string, url: string, crawlIntervalString: string, maxAgeString: string)

  /**
   * `myParseDuration`: `time.Duration(v) * time.Second` when `Atoi` accepts the text, which
   * wraps around like any `int64` product; otherwise `ParseDuration`'s value, or zero.
   */
  function MyParseDuration(s: string): (d: int)
    ensures InInt64(d)
  {
    match Atoi(s)
    case Some(v) => Wrap64(v * Second)
    case None =>
      match ParseDuration(s)
      case Some(d) => d
      case None => 0
  }

  /** `CrawlInterval`: the time between two fetches; a text that is no duration gives 0. */
  function CrawlInterval(w: Webcam): (d: int)
    ensures InInt64(d)
    ensures Atoi(w.crawlIntervalString).None? && ParseDuration(w.crawlIntervalString).None? ==> d == 0
  {
    MyParseDuration(w.crawlIntervalString)
  }

  /** `MaxAge`: how long a stored image is kept; a text that is no duration gives 0. */
  function MaxAge(w: Webcam): (d: int)
    ensures InInt64(d)
    ensures Atoi(w.maxAgeString).None? && ParseDuration(w.maxAgeString).None? ==> d == 0
  {
    MyParseDuration(w.maxAgeString)
  }

  /**
   * A bare integer is that many seconds, reduced to 64 bits: exact whenever the product
   * fits in a `Duration`, negative for 9223372037.
   */
  lemma WholeSeconds(n: int)
    requires InInt64(n)
    ensures MyParseDuration(Itoa(n)) == Wrap64(n * Second)
    ensures InInt64(n * Second) ==> MyParseDuration(Itoa(n)) == n * Second
  {
    AtoiItoa(n);
  }

  /** 9223372037 seconds do not fit in a `Duration`: the product wraps around to a negative value. */
  lemma SecondsWrapAround()
    ensures Wrap64(9223372037 * Second) == 9223372037 * Second - TwoTo64 < 0
  {
  }

  /** A number with a unit is read by `ParseDuration`. */
  lemma WithUnit(n: nat, u: string, unit: nat)
    requires UnitValue(u) == Some(unit) && n * unit <= MaxInt64
    ensures MyParseDuration(NatString(n) + u) == n * unit
  {
    UnitNameChars(u);
    var s := NatString(n) + u;
    assert !IsDigit(s[|NatString(n)|]);
    assert Atoi(s) == None by {
      assert s[0] == NatString(n)[0];
    }
    ParseDurationOfUnit(n, u, unit);
  }

  /** Text neither `Atoi` nor `ParseDuration` accepts reads as zero, as does `0`. */
  lemma Unparseable()
    ensures MyParseDuration("hahaha") == 0
    ensures MyParseDuration("") == 0
    ensures MyParseDuration("0") == 0
  {
    ParseDurationSpecialCases();
    assert Atoi("0") == Some(0);
  }

  /** TestWebcamDurationParsing and TestWebcamInvalidDurationParsing. */
  lemma DurationSettings()
    ensures CrawlInterval(Webcam(1, "Les Paccots", "", "10", "3ms")) == 10 * Second
    ensures MaxAge(Webcam(1, "Les Paccots", "", "10", "3ms")) == 3 * Millisecond
    ensures CrawlInterval(Webcam(1, "Les Paccots", "", "hahaha", "3ms")) == 0
  {
    assert Itoa(10) == "10";
    WholeSeconds(10);
    assert NatString(3) + "ms" == "3ms";
    UnitTable();
    WithUnit(3, "ms", Millisecond);
    Unparseable();
  }
}
