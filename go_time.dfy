/**
 * The parts of Go's `time` package the crawler relies on: durations and
 * `ParseDuration`, instants written and read in the RFC 3339 layout, and `Sub`.
 * Behaviour follows the package as of Go 1.20.
 */
module GoTime {
  import opened Wrappers
  import opened GoStrconv

  // ---------------------------------------------------------------------------------
  // Durations: a `time.Duration` is an `int64` count of nanoseconds.
  // ---------------------------------------------------------------------------------

  const Nanosecond: int := 1
  const Microsecond: int := 1000 * Nanosecond
  const Millisecond: int := 1000 * Microsecond
  const Second: int := 1000 * Millisecond
  const Minute: int := 60 * Second
  const Hour: int := 60 * Minute

  const TwoTo63: nat := 0x8000_0000_0000_0000
  const TwoTo64: nat := 0x1_0000_0000_0000_0000

  /** Go's `int64` arithmetic: the result of an operation reduced to 64 bits, two's complement. */
  function Wrap64(x: int): (r: int)
    ensures InInt64(r)
    ensures (r - x) % TwoTo64 == 0
    ensures InInt64(x) ==> r == x
  {
    var m := x % TwoTo64;
    if m >= TwoTo63 then m - TwoTo64 else m
  }

  /**
   * `unitMap`: the units `ParseDuration` knows (`ns`, `us`, `µs` with U+00B5, `μs` with
   * U+03BC, `ms`, `s`, `m`, `h`) with their scale in nanoseconds, looked up character
   * by character.
   */
  function UnitValue(u: string): (r: Option<nat>)
    ensures r.Some? ==> r.value > 0
  {
    if |u| == 1 then
      if u[0] == 's' then Some(Second)
      else if u[0] == 'm' then Some(Minute)
      else if u[0] == 'h' then Some(Hour)
      else None
    else if |u| == 2 && u[1] == 's' then
      if u[0] == 'n' then Some(Nanosecond)
      else if u[0] == 'u' || u[0] == '\U{B5}' || u[0] == '\U{3BC}' then Some(Microsecond)
      else if u[0] == 'm' then Some(Millisecond)
      else None
    else None
  }

  /** The table of units, entry by entry. */
  lemma UnitTable()
    ensures UnitValue("ns") == Some(1) && UnitValue("us") == Some(1000)
    ensures UnitValue("\U{B5}s") == Some(1000) && UnitValue("\U{3BC}s") == Some(1000)
    ensures UnitValue("ms") == Some(1_000_000) && UnitValue("s") == Some(1_000_000_000)
    ensures UnitValue("m") == Some(60_000_000_000) && UnitValue("h") == Some(3_600_000_000_000)
    ensures UnitValue("x") == None && UnitValue("sec") == None
  {
  }

  /** Every unit name is non-empty and consists of unit characters only. */
  lemma UnitNameChars(u: string)
    requires UnitValue(u).Some?
    ensures |u| > 0 && UnitRun(u) == |u|
  {
    assert IsUnitChar(u[0]);
    if |u| == 2 {
      assert IsUnitChar(u[1..][0]);
      assert |u[1..][1..]| == 0;
    }
  }

  /** The number of leading decimal digits of `s`. */
  function DigitRun(s: string): (n: nat)
    ensures n <= |s| && AllDigits(s[..n])
    ensures n < |s| ==> !IsDigit(s[n])
    decreases |s|
  {
    if |s| == 0 || !IsDigit(s[0]) then 0
    else
      var n := 1 + DigitRun(s[1..]);
      assert s[..n] == s[..1] + s[1..][..n - 1];
      n
  }

  predicate IsUnitChar(c: char) {
    c != '.' && !IsDigit(c)
  }

  /** The number of leading characters of `s` that may belong to a unit. */
  function UnitRun(s: string): (n: nat)
    ensures n <= |s|
    ensures forall i :: 0 <= i < n ==> IsUnitChar(s[i])
    ensures n < |s| ==> !IsUnitChar(s[n])
    decreases |s|
  {
    if |s| == 0 || !IsUnitChar(s[0]) then 0 else 1 + UnitRun(s[1..])
  }

  /**
   * `leadingFraction`: the digits after a decimal point, read as `x / scale`; once another
   * digit would take `x` past 2^63 the remaining digits are skipped.
   */
  function LeadingFraction(digits: string, x: nat, scale: nat, overflow: bool): (r: (nat, nat))
    requires AllDigits(digits) && scale > 0
    ensures r.1 > 0
    decreases |digits|
  {
    if |digits| == 0 then (x, scale)
    else if overflow || x > MaxInt64 / 10 || x * 10 + DigitValue(digits[0]) > TwoTo63 then
      LeadingFraction(digits[1..], x, scale, true)
    else
      LeadingFraction(digits[1..], x * 10 + DigitValue(digits[0]), scale * 10, false)
  }

  /**
   * The optional `\.[0-9]*` after the integer part of a component: the fraction read by
   * `LeadingFraction`, the number of its digits, and the text after them.
   */
  function FractionPart(s: string): (r: (nat, nat, nat, string))
    ensures r.1 > 0 && |r.3| <= |s|
    ensures r.2 > 0 ==> |r.3| < |s|
    ensures (s == "" || s[0] != '.') ==> r == (0, 1, 0, s)
  {
    if |s| > 0 && s[0] == '.' then
      var t := s[1..];
      var fl := DigitRun(t);
      var f := LeadingFraction(t[..fl], 0, 1, false);
      (f.0, f.1, fl, t[fl..])
    else (0, 1, 0, s)
  }

  /**
   * `v` units plus the fraction `f / scale` of a unit, in nanoseconds, or nothing when
   * it exceeds 2^63.
   */
  function Scaled(v: nat, f: nat, scale: nat, unit: nat): (r: Option<nat>)
    requires unit > 0 && scale > 0
    ensures r.Some? ==> r.value <= TwoTo63
  {
    if v > TwoTo63 / unit then None
    else
      var total := if f > 0 then v * unit + f * unit / scale else v * unit;
      if total > TwoTo63 then None else Some(total)
  }

  /** A whole number of units that stays within 2^63 is scaled exactly. */
  lemma ScaledWhole(v: nat, unit: nat, total: nat)
    requires unit > 0 && total == v * unit && total <= TwoTo63
    ensures Scaled(v, 0, 1, unit) == Some(total)
  {
    DivBound(v, unit, TwoTo63);
  }

  lemma DivBound(n: nat, d: nat, bound: nat)
    requires d > 0 && n * d <= bound
    ensures n <= bound / d
  {
    var q := bound / d;
    assert bound == q * d + bound % d;
    if n > q {
      MulMonotonic(q + 1, n, d);
    }
  }

  lemma MulMonotonic(a: nat, b: nat, d: nat)
    requires a <= b
    ensures a * d <= b * d
  {
    assert b * d == a * d + (b - a) * d;
  }

  /** The unit that ends a component, and the component's value in that unit. */
  function UnitPart(v: nat, f: nat, scale: nat, s: string): (r: Option<(nat, string)>)
    requires scale > 0
    ensures r.Some? ==> r.value.0 <= TwoTo63 && |r.value.1| < |s|
  {
    var i := UnitRun(s);
    if i == 0 then None
    else match UnitValue(s[..i])
      case None => None
      case Some(unit) =>
        match Scaled(v, f, scale, unit)
        case None => None
        case Some(total) => Some((total, s[i..]))
  }

  /** What follows the integer part `v` of a component; `pre` says whether it had digits. */
  function AfterIntegerPart(v: nat, pre: bool, s: string): (r: Option<(nat, string)>)
    ensures r.Some? ==> r.value.0 <= TwoTo63 && |r.value.1| < |s|
  {
    var (f, scale, fl, rest) := FractionPart(s);
    if !pre && fl == 0 then None else UnitPart(v, f, scale, rest)
  }

  /**
   * One component `[0-9]*(\.[0-9]*)?[a-z]+` at the start of `s`: its value in
   * nanoseconds and the text after it. The number needs a digit on one side of the point.
   */
  function Component(s: string): (r: Option<(nat, string)>)
    requires s != ""
    ensures r.Some? ==> r.value.0 <= TwoTo63 && |r.value.1| < |s|
  {
    if !(s[0] == '.' || IsDigit(s[0])) then None
    else
      var pl := DigitRun(s);
      var v := DecimalValue(s[..pl]);
      if v > TwoTo63 then None else AfterIntegerPart(v, pl > 0, s[pl..])
  }

  /** The loop of `ParseDuration`: adds the components of `s` to `d`, which may not exceed 2^63. */
  function Components(s: string, d: nat): (r: Option<nat>)
    ensures r.Some? ==> r.value <= TwoTo63
    ensures r.Some? && s == "" ==> r.value == d
    decreases |s|
  {
    if s == "" then (if d <= TwoTo63 then Some(d) else None)
    else
      var c := Component(s);
      if c.None? || d + c.value.0 > TwoTo63 then None
      else Components(c.value.1, d + c.value.0)
  }

  /**
   * `time.ParseDuration`: an optional sign, then `0` alone or one or more components, each
   * a decimal number with a unit. A fractional part is scaled exactly (Go goes through
   * `float64` and may differ by a nanosecond).
   */
  function ParseDuration(s: string): (r: Option<int>)
    ensures r.Some? ==> InInt64(r.value)
  {
    var negative := |s| > 0 && s[0] == '-';
    var rest := if |s| > 0 && (s[0] == '-' || s[0] == '+') then s[1..] else s;
    if rest == "0" then Some(0)
    else if rest == "" then None
    else match Components(rest, 0)
      case None => None
      case Some(d) =>
        if negative then Some(-(d as int))
        else if d > MaxInt64 then None
        else Some(d)
  }

  /** A unit name ends a whole number of units. */
  lemma UnitPartOf(n: nat, u: string, rest: string, unit: nat, total: nat)
    requires UnitValue(u) == Some(unit)
    requires rest == "" || !IsUnitChar(rest[0])
    requires total == n * unit && total <= TwoTo63
    ensures UnitPart(n, 0, 1, u + rest) == Some((total, rest))
  {
    UnitNameChars(u);
    assert UnitRun(u + rest) == |u| by { UnitRunOf(u, rest); }
    assert (u + rest)[..|u|] == u && (u + rest)[|u|..] == rest;
    ScaledWhole(n, unit, total);
  }

  /** A component that starts with digits and has no fractional part. */
  lemma ComponentOfDigits(digits: string, tail: string)
    requires |digits| > 0 && AllDigits(digits) && DecimalValue(digits) <= TwoTo63
    requires tail != "" && !IsDigit(tail[0]) && tail[0] != '.'
    ensures Component(digits + tail) == UnitPart(DecimalValue(digits), 0, 1, tail)
  {
    var s := digits + tail;
    assert DigitRun(s) == |digits| by { DigitRunOf(digits, tail); }
    assert s[..|digits|] == digits && s[|digits|..] == tail;
    assert FractionPart(tail) == (0, 1, 0, tail);
  }

  /** A product that stays within a bound keeps each factor within it. */
  lemma FactorBound(n: nat, unit: nat, total: nat)
    requires unit > 0 && total == n * unit && total <= TwoTo63
    ensures n <= TwoTo63
  {
    MulMonotonic(1, unit, n);
  }

  /** One component: `n` followed by a unit. */
  lemma ComponentOf(n: nat, u: string, rest: string, unit: nat, total: nat)
    requires UnitValue(u) == Some(unit)
    requires rest == "" || !IsUnitChar(rest[0])
    requires total == n * unit && total <= TwoTo63
    ensures Component(NatString(n) + u + rest) == Some((total, rest))
  {
    var tail := u + rest;
    assert NatString(n) + u + rest == NatString(n) + tail;
    assert Component(NatString(n) + tail) == UnitPart(n, 0, 1, tail) by {
      assert tail != "" && !IsDigit(tail[0]) && tail[0] != '.' by {
        UnitNameChars(u);
        assert tail[0] == u[0];
      }
      NatStringValue(n);
      FactorBound(n, unit, total);
      ComponentOfDigits(NatString(n), tail);
    }
    assert UnitPart(n, 0, 1, tail) == Some((total, rest)) by {
      UnitPartOf(n, u, rest, unit, total);
    }
  }

  /** When a text is a single such component, the loop adds its value and stops. */
  lemma ComponentsOfOne(n: nat, u: string, d: nat, unit: nat, total: nat, e: nat)
    requires UnitValue(u) == Some(unit)
    requires total == n * unit && e == d + total && e <= TwoTo63
    ensures Components(NatString(n) + u, d) == Some(e)
  {
    var s := NatString(n) + u;
    assert s != "" && Component(s) == Some((total, "")) by {
      assert s == NatString(n) + u + "";
      ComponentOf(n, u, "", unit, total);
    }
    ComponentsLast(s, d, total, e);
  }

  /** The last iteration of the loop of `ParseDuration`. */
  lemma ComponentsLast(s: string, d: nat, total: nat, e: nat)
    requires s != "" && Component(s) == Some((total, ""))
    requires e == d + total && e <= TwoTo63
    ensures Components(s, d) == Some(e)
  {
  }

  lemma {:induction false} DigitRunOf(digits: string, rest: string)
    requires AllDigits(digits) && (rest == [] || !IsDigit(rest[0]))
    ensures DigitRun(digits + rest) == |digits|
    decreases |digits|
  {
    if |digits| > 0 {
      assert (digits + rest)[1..] == digits[1..] + rest;
      DigitRunOf(digits[1..], rest);
    }
  }

  lemma {:induction false} UnitRunOf(u: string, rest: string)
    requires UnitRun(u) == |u| && (rest == [] || !IsUnitChar(rest[0]))
    ensures UnitRun(u + rest) == |u|
    decreases |u|
  {
    if |u| > 0 {
      assert (u + rest)[1..] == u[1..] + rest;
      assert UnitRun(u[1..]) == |u| - 1;
      UnitRunOf(u[1..], rest);
    }
  }

  /** Unsigned text other than `0` denotes the total of its components. */
  lemma ParseUnsigned(s: string, d: nat)
    requires |s| > 1 && IsDigit(s[0]) && Components(s, 0) == Some(d) && d <= MaxInt64
    ensures ParseDuration(s) == Some(d)
  {
  }

  // ---------------------------------------------------------------------------------
  // Instants: the civil fields of a `time.Time` in its zone, and the zone's offset
  // east of UTC in seconds.
  // ---------------------------------------------------------------------------------

  datatype Time = Time(year: int, month: int, day: int, hour: int, minute: int, second: int,
                       nanosecond: int, offset: int)

  predicate IsLeap(year: int) {
    year % 4 == 0 && (year % 100 != 0 || year % 400 == 0)
  }

  function DaysIn(month: int, year: int): int {
    if month == 2 then (if IsLeap(year) then 29 else 28)
    else if month == 4 || month == 6 || month == 9 || month == 11 then 30
    else 31
  }

  /** The ranges `time.Date` keeps its fields in. */
  predicate ValidTime(t: Time) {
    1 <= t.month <= 12 && 1 <= t.day <= DaysIn(t.month, t.year) &&
    0 <= t.hour < 24 && 0 <= t.minute < 60 && 0 <= t.second < 60 &&
    0 <= t.nanosecond < Second
  }

  /** The number of days from 1970-01-01 to the given date of the proleptic Gregorian calendar. */
  function DaysFromCivil(year: int, month: int, day: int): int {
    var y := if month <= 2 then year - 1 else year;
    var era := y / 400;
    var yoe := y - era * 400;
    var mp := if month > 2 then month - 3 else month + 9;
    var doy := (153 * mp + 2) / 5 + day - 1;
    var doe := yoe * 365 + yoe / 4 - yoe / 100 + doy;
    era * 146097 + doe - 719468
  }

  /** The instant `t` denotes, in nanoseconds since 1970-01-01T00:00:00Z. */
  function UnixNano(t: Time): int {
    var seconds := DaysFromCivil(t.year, t.month, t.day) * 86400 + t.hour * 3600 + t.minute * 60 + t.second;
    (seconds - t.offset) * Second + t.nanosecond
  }

  /** Saturation at the bounds of `int64`. */
  function Clamp64(x: int): (r: int)
    ensures InInt64(r)
    ensures InInt64(x) ==> r == x
    ensures x > MaxInt64 ==> r == MaxInt64
    ensures x < MinInt64 ==> r == MinInt64
  {
    if x > MaxInt64 then MaxInt64 else if x < MinInt64 then MinInt64 else x
  }

  /**
   * `t.Sub(u)`: the duration from `u` to `t`; when it does not fit in a `Duration`,
   * the largest or smallest `Duration` instead.
   */
  function Sub(t: Time, u: Time): (d: int)
    ensures InInt64(d)
  {
    Clamp64(UnixNano(t) - UnixNano(u))
  }

  /** An instant written to the second: its sub-second part is dropped. */
  function Truncate(t: Time): (r: Time)
    ensures r.nanosecond == 0
  {
    t.(nanosecond := 0)
  }

  /** The age of an instant rounded down to its second is its own sub-second part. */
  lemma SubTruncated(t: Time)
    ensures Sub(t, Truncate(t)) == t.nanosecond
    requires ValidTime(t)
  {
    var base := (DaysFromCivil(t.year, t.month, t.day) * 86400 + t.hour * 3600 + t.minute * 60 + t.second - t.offset) * Second;
    assert UnixNano(t) == base + t.nanosecond;
    assert UnixNano(Truncate(t)) == base;
  }

  /** Day 0 of `DaysFromCivil` is the Unix epoch, 1970-01-01. */
  lemma EpochIsDayZero()
    ensures DaysFromCivil(1970, 1, 1) == 0
  {
  }

  /** Within a month, the next day is one day later. */
  lemma NextDayInMonth(year: int, month: int, day: int)
    requires 1 <= month <= 12 && 1 <= day < DaysIn(month, year)
    ensures DaysFromCivil(year, month, day + 1) == DaysFromCivil(year, month, day) + 1
  {
  }

  /** The first of a month is one day after the last day of the month before, February included. */
  lemma NextMonth(year: int, month: int)
    requires 1 <= month < 12
    ensures DaysFromCivil(year, month + 1, 1) == DaysFromCivil(year, month, DaysIn(month, year)) + 1
  {
    if month == 2 {
      LeapDay(year);
    }
  }

  /**
   * The days of the 400-year cycle before the March that starts the year `y`, as
   * `DaysFromCivil` counts them (its years begin in March).
   */
  function CycleDays(y: int): int {
    var era := y / 400;
    var yoe := y - era * 400;
    era * 146097 + yoe * 365 + yoe / 4 - yoe / 100
  }

  /** Counting one more: the quotient by `k` grows exactly when `x + 1` is a multiple of `k`. */
  lemma QuotientStep(x: int, k: int)
    requires 0 <= x && (k == 4 || k == 100)
    ensures (x + 1) / k == x / k + if (x + 1) % k == 0 then 1 else 0
  {
    var q, r := x / k, x % k;
    assert x == q * k + r && 0 <= r < k;
    if r == k - 1 {
      assert x + 1 == (q + 1) * k;
    } else {
      assert x + 1 == q * k + (r + 1) && r + 1 < k;
    }
  }

  /** Within a 400-year cycle, a year is 365 days, 366 when the next one is a leap year of the cycle. */
  lemma CycleYearWithinEra(yoe: int)
    requires 0 <= yoe < 399
    ensures (yoe + 1) * 365 + (yoe + 1) / 4 - (yoe + 1) / 100 ==
            yoe * 365 + yoe / 4 - yoe / 100 + if (yoe + 1) % 4 == 0 && (yoe + 1) % 100 != 0 then 366 else 365
  {
    QuotientStep(yoe, 4);
    QuotientStep(yoe, 100);
  }

  /** The remainder of `a * k + r` by `k`, for `r` in `0 .. k - 1`, is `r`. */
  lemma RemainderOf(a: int, k: int, r: int)
    requires (k == 4 || k == 100) && 0 <= r < k
    ensures (a * k + r) % k == r
  {
    var x := a * k + r;
    assert x == (x / k) * k + x % k;
    assert (a - x / k) * k == x % k - r;
  }

  /** A year and its place in its 400-year cycle. */
  lemma EraOf(y: int)
    ensures var era := y / 400; var yoe := y - era * 400;
            0 <= yoe < 400 && y % 4 == yoe % 4 && y % 100 == yoe % 100 && y % 400 == yoe
  {
    var era := y / 400;
    var yoe := y - era * 400;
    RemainderOf(era * 100 + yoe / 4, 4, yoe % 4);
    assert y == (era * 100 + yoe / 4) * 4 + yoe % 4;
    RemainderOf(era * 4 + yoe / 100, 100, yoe % 100);
    assert y == (era * 4 + yoe / 100) * 100 + yoe % 100;
  }

  /** From one March to the next there are 365 days, 366 when the February between is a leap one. */
  lemma CycleYear(y: int)
    ensures CycleDays(y + 1) == CycleDays(y) + if IsLeap(y + 1) then 366 else 365
  {
    var era := y / 400;
    var yoe := y - era * 400;
    EraOf(y);
    EraOf(y + 1);
    if yoe == 399 {
      assert (y + 1) / 400 == era + 1;
    } else {
      assert (y + 1) / 400 == era;
      CycleYearWithinEra(yoe);
    }
  }

  /** The 1st of March follows the last day of February, the 29th in a leap year. */
  lemma LeapDay(year: int)
    ensures DaysFromCivil(year, 3, 1) == DaysFromCivil(year, 2, DaysIn(2, year)) + 1
  {
    assert DaysFromCivil(year, 3, 1) == CycleDays(year) - 719468;
    assert DaysFromCivil(year, 2, DaysIn(2, year)) == CycleDays(year - 1) + 337 + DaysIn(2, year) - 1 - 719468;
    CycleYear(year - 1);
  }

  /** New Year's Day is one day after the 31st of December. */
  lemma NextYear(year: int)
    ensures DaysFromCivil(year + 1, 1, 1) == DaysFromCivil(year, 12, 31) + 1
  {
  }

  /** The date of `u` is the day after the date of `t` in the proleptic Gregorian calendar. */
  predicate NextDate(t: Time, u: Time) {
    1 <= t.month <= 12 && 1 <= t.day <= DaysIn(t.month, t.year) &&
    if t.day < DaysIn(t.month, t.year) then u.year == t.year && u.month == t.month && u.day == t.day + 1
    else if t.month < 12 then u.year == t.year && u.month == t.month + 1 && u.day == 1
    else u.year == t.year + 1 && u.month == 1 && u.day == 1
  }

  /** Consecutive dates are consecutive day numbers. */
  lemma NextDateIsNextDay(t: Time, u: Time)
    requires NextDate(t, u)
    ensures DaysFromCivil(u.year, u.month, u.day) == DaysFromCivil(t.year, t.month, t.day) + 1
  {
    if t.day < DaysIn(t.month, t.year) {
      NextDayInMonth(t.year, t.month, t.day);
    } else if t.month < 12 {
      NextMonth(t.year, t.month);
    } else {
      NextYear(t.year);
    }
  }

  /** The same clock reading in the same zone on the next date is exactly one day, 86400 s, later. */
  lemma SubNextDate(t: Time, u: Time)
    requires NextDate(t, u)
    requires t.hour == u.hour && t.minute == u.minute && t.second == u.second
    requires t.nanosecond == u.nanosecond && t.offset == u.offset
    ensures Sub(u, t) == 86400 * Second && Sub(t, u) == -86400 * Second
  {
    NextDateIsNextDay(t, u);
  }

  /**
   * `Sub` measures instants: the same instant written in a zone `minutes` further east,
   * on the same date or, past midnight, on the next one, is zero apart either way.
   */
  lemma SubIgnoresZone(t: Time, u: Time, minutes: int)
    requires t.offset + minutes * 60 == u.offset
    requires t.second == u.second && t.nanosecond == u.nanosecond
    requires (t.year == u.year && t.month == u.month && t.day == u.day &&
              u.hour * 60 + u.minute == t.hour * 60 + t.minute + minutes) ||
             (NextDate(t, u) && u.hour * 60 + u.minute == t.hour * 60 + t.minute + minutes - 1440)
    ensures Sub(t, u) == 0 && Sub(u, t) == 0
  {
    if NextDate(t, u) && u.hour * 60 + u.minute == t.hour * 60 + t.minute + minutes - 1440 {
      NextDateIsNextDay(t, u);
    }
  }

  // ---------------------------------------------------------------------------------
  // The RFC 3339 layout `2006-01-02T15:04:05Z07:00`.
  // ---------------------------------------------------------------------------------

  function Zeros(n: int): (s: string)
    ensures |s| == (if n < 0 then 0 else n)
    ensures AllDigits(s)
  {
    seq(if n < 0 then 0 else n, _ => '0')
  }

  /** `appendInt`: the decimal digits of `x`, after a `-` when negative, zero-padded to `width` digits. */
  function AppendInt(x: int, width: nat): string {
    var u: nat := if x < 0 then -x else x;
    var digits :=
      if width == 2 && u < 100 then [DigitChar(u / 10), DigitChar(u % 10)]
      else if width == 4 && u < 10000 then [DigitChar(u / 1000), DigitChar(u / 100 % 10), DigitChar(u / 10 % 10), DigitChar(u % 10)]
      else Zeros(width - |NatString(u)|) + NatString(u);
    (if x < 0 then "-" else "") + digits
  }

  /** Go's `/` on `int`, which truncates toward zero. */
  function TruncDiv(a: int, b: int): int
    requires b > 0
  {
    if a < 0 then -((-a) / b) else a / b
  }

  /**
   * The zone of the layout, `Z07:00`: `Z` for UTC, otherwise the sign and the hours and
   * minutes of the offset; seconds of the offset are not written.
   */
  function ZoneText(offset: int): string {
    if offset == 0 then "Z"
    else
      var zone := TruncDiv(offset, 60);
      var sign := if zone < 0 then "-" else "+";
      var minutes := if zone < 0 then -zone else zone;
      sign + AppendInt(minutes / 60, 2) + ":" + AppendInt(minutes % 60, 2)
  }

  /** The clock part of the layout, `T15:04:05Z07:00`. */
  function ClockText(hour: int, minute: int, second: int, offset: int): string {
    "T" + AppendInt(hour, 2) + (":" + AppendInt(minute, 2) + (":" + AppendInt(second, 2) + ZoneText(offset)))
  }

  /**
   * `t.Format(time.RFC3339)`: for a four-digit year and two-digit fields, the date is
   * written `yyyy-mm-dd` and the clock starts with a `T`.
   */
  function Format(t: Time): (s: string)
    ensures 0 <= t.year <= 9999 && 0 <= t.month < 100 && 0 <= t.day < 100 ==>
              |s| > 10 && AllDigits(s[..4]) && s[4] == '-' && s[7] == '-' && s[10] == 'T'
  {
    AppendInt(t.year, 4) + ("-" + AppendInt(t.month, 2) + ("-" + AppendInt(t.day, 2) +
    ClockText(t.hour, t.minute, t.second, t.offset)))
  }

  /** `getnum`: a number of two digits, or of one digit when not `fixed` and no second digit follows. */
  function GetNum(s: string, fixed: bool): (r: Option<(nat, string)>)
    ensures r.Some? ==> r.value.0 < 100 && |r.value.1| < |s|
  {
    if |s| == 0 || !IsDigit(s[0]) then None
    else if |s| < 2 || !IsDigit(s[1]) then (if fixed then None else Some((DigitValue(s[0]), s[1..])))
    else Some((DigitValue(s[0]) * 10 + DigitValue(s[1]), s[2..]))
  }

  /** A separator of the layout, then a number. */
  function Field(s: string, separator: char, fixed: bool): (r: Option<(nat, string)>)
    ensures r.Some? ==> r.value.0 < 100 && |r.value.1| < |s|
  {
    if |s| > 0 && s[0] == separator then GetNum(s[1..], fixed) else None
  }

  function Pow10(n: nat): (p: nat)
    ensures p > 0
  {
    if n == 0 then 1 else 10 * Pow10(n - 1)
  }

  lemma {:induction false} DecimalBound(s: string)
    requires AllDigits(s)
    ensures DecimalValue(s) < Pow10(|s|)
    decreases |s|
  {
    if |s| > 0 {
      DecimalBound(s[..|s| - 1]);
    }
  }

  /**
   * A fractional second the layout does not ask for: a `.` or `,` and at least one digit,
   * of which the first nine count, as nanoseconds.
   */
  function FractionalSecond(s: string): (r: (nat, string))
    ensures r.0 < Second && |r.1| <= |s|
    ensures (s == "" || (s[0] != '.' && s[0] != ',')) ==> r == (0, s)
  {
    if |s| >= 2 && (s[0] == '.' || s[0] == ',') && IsDigit(s[1]) then
      var n := 1 + DigitRun(s[1..]);
      var k := if n - 1 > 9 then 9 else n - 1;
      var digits := s[1..1 + k];
      assert digits == s[1..][..k];
      NanosecondsBound(digits);
      (DecimalValue(digits) * Pow10(9 - |digits|), s[n..])
    else (0, s)
  }

  /** At most nine digits of a fraction, scaled to nanoseconds, stay under a second. */
  lemma NanosecondsBound(digits: string)
    requires AllDigits(digits) && |digits| <= 9
    ensures DecimalValue(digits) * Pow10(9 - |digits|) < Second
  {
    var k := |digits|;
    var x, p, q := DecimalValue(digits), Pow10(k), Pow10(9 - k);
    assert x < p by {
      DecimalBound(digits);
    }
    assert p * q == Second by {
      PowAdd(k, 9 - k);
      PowNine();
    }
    BelowProduct(x, p, q, Second);
  }

  lemma BelowProduct(x: nat, p: nat, q: nat, bound: nat)
    requires x < p && p * q == bound && q > 0
    ensures x * q < bound
  {
    MulMonotonic(x + 1, p, q);
    assert (x + 1) * q == x * q + q;
  }

  lemma PowNine()
    ensures Pow10(9) == Second
  {
    assert Pow10(3) == 1000;
    assert Pow10(6) == 1000 * Pow10(3);
  }

  lemma {:induction false} PowAdd(a: nat, b: nat)
    ensures Pow10(a) * Pow10(b) == Pow10(a + b)
    decreases a
  {
    if a > 0 {
      PowAdd(a - 1, b);
    }
  }

  /**
   * The zone of the layout when reading: `Z`, or a sign, two digits of hours (at most 24),
   * `:` and two digits of minutes (at most 60).
   */
  function ZoneOffset(s: string): (r: Option<(int, string)>)
    ensures r.Some? ==> -(24 * 3600 + 60 * 60) <= r.value.0 <= 24 * 3600 + 60 * 60
  {
    if |s| >= 1 && s[0] == 'Z' then Some((0, s[1..]))
    else if |s| < 6 || s[3] != ':' then None
    else match (GetNum(s[1..3], true), GetNum(s[4..6], true))
      case (Some((hours, _)), Some((minutes, _))) =>
        if hours > 24 || minutes > 60 then None
        else if s[0] == '+' then Some(((hours * 60 + minutes) * 60, s[6..]))
        else if s[0] == '-' then Some((-(((hours * 60 + minutes) * 60) as int), s[6..]))
        else None
      case _ => None
  }

  /** The date of the layout: four digits of year, `-`, two of month, `-`, two of day. */
  function ParseDate(s: string): (r: Option<(nat, nat, nat, string)>)
    ensures r.Some? ==> r.value.0 <= 9999
  {
    if |s| < 4 || !AllDigits(s[..4]) then None
    else
      var year := DecimalValue(s[..4]);
      DecimalBound(s[..4]);
      match Field(s[4..], '-', true)
      case None => None
      case Some((month, s1)) =>
        match Field(s1, '-', true)
        case None => None
        case Some((day, s2)) => Some((year, month, day, s2))
  }

  /**
   * The clock of the layout: `T`, the hour (one digit allowed), `:`, two digits of minute,
   * `:`, two of second, an optional fractional second, and the zone.
   */
  function ParseClock(s: string): (r: Option<(nat, nat, nat, nat, int, string)>)
    ensures r.Some? ==> r.value.3 < Second
    ensures r.Some? ==> -(24 * 3600 + 60 * 60) <= r.value.4 <= 24 * 3600 + 60 * 60
  {
    match Field(s, 'T', false)
    case None => None
    case Some((hour, s3)) =>
      match Field(s3, ':', true)
      case None => None
      case Some((minute, s4)) =>
        match Field(s4, ':', true)
        case None => None
        case Some((second, s5)) =>
          var (nanosecond, s6) := FractionalSecond(s5);
          match ZoneOffset(s6)
          case None => None
          case Some((offset, s7)) => Some((hour, minute, second, nanosecond, offset, s7))
  }

  /**
   * `time.Parse(time.RFC3339, s)`: the date, then the clock, and nothing after the zone;
   * every field in range and the day within its month.
   */
  function Parse(s: string): (r: Option<Time>)
    ensures r.Some? ==> ValidTime(r.value) && 0 <= r.value.year <= 9999
  {
    match ParseDate(s)
    case None => None
    case Some((year, month, day, rest)) =>
      match ParseClock(rest)
      case None => None
      case Some((hour, minute, second, nanosecond, offset, tail)) =>
        if tail != "" || !(1 <= month <= 12) || !(1 <= day <= DaysIn(month, year)) ||
           hour >= 24 || minute >= 60 || second >= 60
        then None
        else Some(Time(year, month, day, hour, minute, second, nanosecond, offset))
  }

  lemma AppendTwo(x: int)
    requires 0 <= x < 100
    ensures AppendInt(x, 2) == [DigitChar(x / 10), DigitChar(x % 10)]
  {
  }

  /** A separator and a two-digit number, as written, read back as that number. */
  lemma FieldOfTwo(separator: char, x: int, rest: string, fixed: bool)
    requires 0 <= x < 100
    requires rest == "" || !IsDigit(rest[0])
    ensures Field([separator] + AppendInt(x, 2) + rest, separator, fixed) == Some((x, rest))
  {
    AppendTwo(x);
    var s := [separator] + AppendInt(x, 2) + rest;
    assert s[1..] == [DigitChar(x / 10), DigitChar(x % 10)] + rest;
    assert s[1..][2..] == rest;
  }

  lemma FourDigitsValue(a: nat, b: nat, c: nat, d: nat)
    requires a < 10 && b < 10 && c < 10 && d < 10
    ensures DecimalValue([DigitChar(a), DigitChar(b), DigitChar(c), DigitChar(d)]) == ((a * 10 + b) * 10 + c) * 10 + d
  {
    var digits := [DigitChar(a), DigitChar(b), DigitChar(c), DigitChar(d)];
    assert digits[..3][..2][..1] == [DigitChar(a)];
    assert digits[..3][..2] == [DigitChar(a), DigitChar(b)];
    assert digits[..3] == [DigitChar(a), DigitChar(b), DigitChar(c)];
    assert DecimalValue(digits[..3][..2][..1]) == a;
    assert DecimalValue(digits[..3][..2]) == a * 10 + b;
    assert DecimalValue(digits[..3]) == (a * 10 + b) * 10 + c;
  }

  lemma FourDigitsOf(year: int)
    requires 0 <= year <= 9999
    ensures ((year / 1000 * 10 + year / 100 % 10) * 10 + year / 10 % 10) * 10 + year % 10 == year
  {
    assert year / 100 == year / 1000 * 10 + year / 100 % 10;
    assert year / 10 == year / 100 * 10 + year / 10 % 10;
  }

  /** A year of four digits, as written, read back as that year. */
  lemma YearOf(year: int, rest: string)
    requires 0 <= year <= 9999
    ensures var s := AppendInt(year, 4) + rest;
            |s| >= 4 && AllDigits(s[..4]) && DecimalValue(s[..4]) == year && s[4..] == rest
  {
    var digits := AppendInt(year, 4);
    var s := digits + rest;
    assert s[..4] == digits && s[4..] == rest;
    assert digits == [DigitChar(year / 1000), DigitChar(year / 100 % 10), DigitChar(year / 10 % 10), DigitChar(year % 10)];
    FourDigitsValue(year / 1000, year / 100 % 10, year / 10 % 10, year % 10);
    FourDigitsOf(year);
  }

  /** A sign, hours and minutes, as written, read back as the offset they denote. */
  lemma ZoneParse(sign: char, hours: int, minutes: int)
    requires sign == '+' || sign == '-'
    requires 0 <= hours <= 24 && 0 <= minutes < 60
    ensures ZoneOffset([sign] + AppendInt(hours, 2) + ":" + AppendInt(minutes, 2)) ==
            Some((if sign == '-' then -((hours * 60 + minutes) * 60) else (hours * 60 + minutes) * 60, ""))
  {
    var z := [sign] + AppendInt(hours, 2) + ":" + AppendInt(minutes, 2);
    AppendTwo(hours);
    AppendTwo(minutes);
    assert |z| == 6 && z[0] == sign && z[3] == ':' && z[6..] == "";
    assert GetNum(z[1..3], true) == Some((hours, "")) by {
      assert z[1..3] == AppendInt(hours, 2);
    }
    assert GetNum(z[4..6], true) == Some((minutes, "")) by {
      assert z[4..6] == AppendInt(minutes, 2);
    }
  }

  /** How `ZoneText` writes a non-zero offset of whole minutes. */
  lemma ZoneTextShape(offset: int)
    requires offset != 0 && offset % 60 == 0 && -25 * 3600 < offset < 25 * 3600
    ensures var minutes := (if offset < 0 then -offset else offset) / 60;
            minutes / 60 <= 24 && (minutes / 60 * 60 + minutes % 60) * 60 == (if offset < 0 then -offset else offset) &&
            ZoneText(offset) == [if offset < 0 then '-' else '+'] + AppendInt(minutes / 60, 2) + ":" + AppendInt(minutes % 60, 2)
  {
    var a := if offset < 0 then -offset else offset;
    var minutes := a / 60;
    assert a == minutes * 60 by {
      assert a % 60 == 0;
    }
    assert minutes < 1500;
    assert minutes / 60 * 60 + minutes % 60 == minutes;
    assert TruncDiv(offset, 60) == (if offset < 0 then -minutes else minutes);
  }

  /** A zone offset of whole minutes under 25 hours, as written, reads back unchanged. */
  lemma ZoneRoundTrip(offset: int)
    requires offset % 60 == 0 && -25 * 3600 < offset < 25 * 3600
    ensures ZoneOffset(ZoneText(offset)) == Some((offset, ""))
    ensures ZoneText(offset)[0] == 'Z' || ZoneText(offset)[0] == '+' || ZoneText(offset)[0] == '-'
  {
    if offset != 0 {
      ZoneTextShape(offset);
      var minutes := (if offset < 0 then -offset else offset) / 60;
      ZoneParse(if offset < 0 then '-' else '+', minutes / 60, minutes % 60);
    } else {
      assert ZoneText(offset)[1..] == "";
    }
  }

  /** The date as written reads back, and leaves the clock part to be read. */
  lemma DateOf(year: int, month: int, day: int, rest: string)
    requires 0 <= year <= 9999 && 0 <= month < 100 && 0 <= day < 100
    requires rest != "" && !IsDigit(rest[0])
    ensures ParseDate(AppendInt(year, 4) + ("-" + AppendInt(month, 2) + ("-" + AppendInt(day, 2) + rest))) ==
            Some((year, month, day, rest))
  {
    var r2 := "-" + AppendInt(day, 2) + rest;
    var r1 := "-" + AppendInt(month, 2) + r2;
    YearOf(year, r1);
    FieldOfTwo('-', month, r2, true);
    FieldOfTwo('-', day, rest, true);
  }

  /** The clock as written reads back, with no fractional second and nothing after the zone. */
  lemma ClockOf(hour: int, minute: int, second: int, offset: int)
    requires 0 <= hour < 24 && 0 <= minute < 60 && 0 <= second < 60
    requires offset % 60 == 0 && -25 * 3600 < offset < 25 * 3600
    ensures ParseClock(ClockText(hour, minute, second, offset)) == Some((hour, minute, second, 0, offset, ""))
  {
    var z := ZoneText(offset);
    ZoneRoundTrip(offset);
    var r5 := ":" + AppendInt(second, 2) + z;
    var r4 := ":" + AppendInt(minute, 2) + r5;
    FieldOfTwo('T', hour, r4, false);
    FieldOfTwo(':', minute, r5, true);
    FieldOfTwo(':', second, z, true);
    assert FractionalSecond(z) == (0, z);
  }

  /**
   * Reading what `Format` writes gives back the instant to the second, for years of four
   * digits and zones of whole minutes.
   */
  lemma ParseFormat(t: Time)
    requires ValidTime(t) && 0 <= t.year <= 9999
    requires t.offset % 60 == 0 && -25 * 3600 < t.offset < 25 * 3600
    ensures Parse(Format(t)) == Some(Truncate(t))
  {
    var clock := ClockText(t.hour, t.minute, t.second, t.offset);
    DateOf(t.year, t.month, t.day, clock);
    ClockOf(t.hour, t.minute, t.second, t.offset);
  }
}
