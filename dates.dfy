/**
  * The clock-time helpers of src/plugins/dates.js: "HH:mm" to minutes, the
  * length of an in/out pair (wrapping past midnight), the crossing test, and
  * the "Xh YYm" rendering of a duration.
  */
module Dates {
  import opened Wrappers
  import opened JsValues

  const MinutesPerDay: int := 24 * 60

  /** One worked interval: its clock-in and clock-out times as typed. */
  datatype Pair = Pair(clockIn: string, clockOut: string)

  /** Exactly two digits, a colon and two digits (the digits are ASCII). */
  predicate IsClock(hm: string)
  {
    |hm| == 5 && IsDigit(hm[0]) && IsDigit(hm[1]) && hm[2] == ':' && IsDigit(hm[3]) && IsDigit(hm[4])
  }

  lemma TwoDigits(s: string)
    requires |s| == 2 && AllDigits(s)
    ensures DigitsValue(s) == DigitValue(s[0]) * 10 + DigitValue(s[1]) < 100
  {
    assert s[..1] == [s[0]];
    assert s[..1][..0] == [];
    assert DigitsValue(s[..1]) == DigitValue(s[0]);
  }

  /** Minutes since 00:00 of an "HH:mm" string; `None` stands for `NaN`. Neither part is range-checked. */
  function ToMinutes(hm: string): (r: Option<int>)
    ensures r.Some? <==> IsClock(hm)
    ensures r.Some? ==> 0 <= r.value <= 99 * 60 + 99
  {
    if IsClock(hm) then
      TwoDigits(hm[..2]);
      TwoDigits(hm[3..]);
      Some(DigitsValue(hm[..2]) * 60 + DigitsValue(hm[3..]))
    else None
  }

  /** A number below 100 as two digits. */
  function Pad2(n: nat): (s: string)
    requires n < 100
    ensures |s| == 2 && AllDigits(s)
  {
    [DigitChar(n / 10), DigitChar(n % 10)]
  }

  function Clock(h: nat, m: nat): string
    requires h < 100 && m < 100
  {
    Pad2(h) + ":" + Pad2(m)
  }

  lemma Pad2Value(n: nat)
    requires n < 100
    ensures DigitsValue(Pad2(n)) == n
  {
    TwoDigits(Pad2(n));
  }

  /** The accepted strings are exactly the "HH:mm" renderings of two numbers below 100. */
  lemma ToMinutesOfClock(h: nat, m: nat)
    requires h < 100 && m < 100
    ensures ToMinutes(Clock(h, m)) == Some(h * 60 + m)
  {
    var s := Clock(h, m);
    assert s[..2] == Pad2(h) && s[3..] == Pad2(m);
    Pad2Value(h);
    Pad2Value(m);
  }

  lemma ClockOfToMinutes(hm: string)
    requires ToMinutes(hm).Some?
    ensures exists h: nat, m: nat :: h < 100 && m < 100 && hm == Clock(h, m) && ToMinutes(hm) == Some(h * 60 + m)
  {
    var h := DigitValue(hm[0]) * 10 + DigitValue(hm[1]);
    var m := DigitValue(hm[3]) * 10 + DigitValue(hm[4]);
    TwoDigits(hm[..2]);
    TwoDigits(hm[3..]);
    assert DigitChar(h / 10) == hm[0] && DigitChar(h % 10) == hm[1];
    assert DigitChar(m / 10) == hm[3] && DigitChar(m % 10) == hm[4];
    assert hm == Clock(h, m);
  }

  /** There is no range check: "99:99" is 6039 minutes and "01:60" is the same time as "02:00". */
  lemma NoRangeCheck()
    ensures ToMinutes("99:99") == Some(6039)
    ensures ToMinutes("01:60") == ToMinutes("02:00") == Some(120)
  {
    ToMinutesOfClock(99, 99);
    assert Clock(99, 99) == "99:99";
    ToMinutesOfClock(1, 60);
    assert Clock(1, 60) == "01:60";
    ToMinutesOfClock(2, 0);
    assert Clock(2, 0) == "02:00";
  }

  /**
    * Minutes from clock-in to clock-out: 0 for a missing pair or an invalid
    * end, a day added when the clock-out is earlier, and never negative.
    */
  function PairMinutes(p: Option<Pair>): (r: int)
    ensures r >= 0
    ensures p.None? || ToMinutes(p.value.clockIn).None? || ToMinutes(p.value.clockOut).None? ==> r == 0
    ensures p.Some? && p.value.clockIn == p.value.clockOut ==> r == 0
  {
    if p.None? then 0
    else
      var a := ToMinutes(p.value.clockIn);
      var b := ToMinutes(p.value.clockOut);
      if a.None? || b.None? then 0
      else
        var diff := b.value - a.value;
        var wrapped := if diff < 0 then diff + MinutesPerDay else diff;
        if wrapped < 0 then 0 else wrapped
  }

  /** The pair crosses midnight: both ends valid and the clock-out earlier. */
  function IsCrossMidnight(p: Option<Pair>): bool
  {
    if p.None? then false
    else
      var a := ToMinutes(p.value.clockIn);
      var b := ToMinutes(p.value.clockOut);
      if a.None? || b.None? then false else b.value - a.value < 0
  }

  lemma PairMinutesExamples()
    ensures PairMinutes(Some(Pair("09:00", "12:00"))) == 180
    ensures PairMinutes(Some(Pair("23:00", "01:00"))) == 120
    ensures PairMinutes(Some(Pair("08:30", "08:30"))) == 0
    ensures PairMinutes(Some(Pair("", "12:00"))) == 0
  {
    ClockChars("09:00");
    ClockChars("12:00");
    ClockChars("23:00");
    ClockChars("01:00");
  }

  /** An accepted string read digit by digit. */
  lemma ClockChars(hm: string)
    requires IsClock(hm)
    ensures ToMinutes(hm) == Some((DigitValue(hm[0]) * 10 + DigitValue(hm[1])) * 60 + DigitValue(hm[3]) * 10 + DigitValue(hm[4]))
  {
    TwoDigits(hm[..2]);
    TwoDigits(hm[3..]);
  }

  /** The clamp at zero is reached: without a range check a wrapped difference can stay negative. */
  lemma ClampReached()
    ensures IsCrossMidnight(Some(Pair("99:99", "00:00")))
    ensures PairMinutes(Some(Pair("99:99", "00:00"))) == 0
  {
    ToMinutesOfClock(99, 99);
    assert Clock(99, 99) == "99:99";
    ToMinutesOfClock(0, 0);
    assert Clock(0, 0) == "00:00";
  }

  /** Times within one day: the length is the clock-out minus the clock-in modulo a day. */
  lemma PairMinutesWithinDay(p: Pair)
    requires ToMinutes(p.clockIn).Some? && ToMinutes(p.clockIn).value < MinutesPerDay
    requires ToMinutes(p.clockOut).Some? && ToMinutes(p.clockOut).value < MinutesPerDay
    ensures PairMinutes(Some(p)) == (ToMinutes(p.clockOut).value - ToMinutes(p.clockIn).value) % MinutesPerDay
    ensures PairMinutes(Some(p)) < MinutesPerDay
  {
  }

  /**
    * Crossing midnight is exactly the branch that adds a day: the length is
    * the difference plus a day (clamped at zero) when crossing, and the plain
    * difference otherwise.
    */
  lemma CrossMidnightBranch(p: Pair)
    requires ToMinutes(p.clockIn).Some? && ToMinutes(p.clockOut).Some?
    ensures var a := ToMinutes(p.clockIn).value;
      var b := ToMinutes(p.clockOut).value;
      && (IsCrossMidnight(Some(p)) <==> b < a)
      && (IsCrossMidnight(Some(p)) ==> PairMinutes(Some(p)) == Max(0, b - a + MinutesPerDay))
      && (!IsCrossMidnight(Some(p)) ==> PairMinutes(Some(p)) == b - a)
  {
  }

  /** Within one day, a crossing pair ends a day after it starts. */
  lemma CrossMidnightWithinDay(p: Pair)
    requires IsCrossMidnight(Some(p))
    requires ToMinutes(p.clockIn).value < MinutesPerDay
    ensures ToMinutes(p.clockIn).value + PairMinutes(Some(p)) == ToMinutes(p.clockOut).value + MinutesPerDay
  {
  }

  function Max(a: int, b: int): int
  {
    if a < b then b else a
  }

  // ---------------------------------------------------------------------------
  // "Xh YYm"
  // ---------------------------------------------------------------------------

  /** Left-pads a string to two characters with '0'. */
  function PadStart2(s: string): (r: string)
    ensures |s| < 2 ==> |r| == 2
  {
    if |s| == 0 then "00" else if |s| == 1 then "0" + s else s
  }

  /**
    * A duration in minutes as "Xh YYm": missing, zero, `NaN` and negative
    * input show as "0h 00m". Input is an integer, so rounding changes nothing.
    */
  function FormatMinutes(mins: Option<int>): (r: string)
  {
    var m := if mins.None? then 0 else Max(0, mins.value);
    NatToString(m / 60) + "h " + PadStart2(NatToString(m % 60)) + "m"
  }

  /** Reads "Xh YYm" back as a number of minutes. */
  function ParseFormatted(s: string): Option<int>
  {
    if |s| < 6 || s[|s| - 1] != 'm' || s[|s| - 5..|s| - 3] != "h " then None
    else
      var hours := s[..|s| - 5];
      var mm := s[|s| - 3..|s| - 1];
      if !AllDigits(hours) || !AllDigits(mm) then None
      else Some(DigitsValue(hours) * 60 + DigitsValue(mm))
  }

  /**
    * "Xh YYm" always has two minute digits below 60 and reads back as the
    * input clamped at zero.
    */
  lemma FormatMinutesRoundTrip(mins: Option<int>)
    ensures var r := FormatMinutes(mins);
      var n := if mins.None? then 0 else Max(0, mins.value);
      && ParseFormatted(r) == Some(n)
      && AllDigits(r[|r| - 3..|r| - 1]) && DigitsValue(r[|r| - 3..|r| - 1]) < 60
  {
    var n := if mins.None? then 0 else Max(0, mins.value);
    var hs := NatToString(n / 60);
    var ms := NatToString(n % 60);
    var mm := PadStart2(ms);
    var r := FormatMinutes(mins);
    assert r == hs + "h " + mm + "m";
    PadStart2Value(ms);
    FormattedParts(hs, mm);
    ParseFormattedParts(hs, mm);
    NatToStringRoundTrip(n / 60);
    NatToStringRoundTrip(n % 60);
    assert DigitsValue(hs) * 60 + DigitsValue(mm) == n;
  }

  /** "Xh YYm" built from digit strings reads back as hours times 60 plus minutes. */
  lemma ParseFormattedParts(hs: string, mm: string)
    requires |hs| >= 1 && AllDigits(hs) && |mm| == 2 && AllDigits(mm)
    ensures ParseFormatted(hs + "h " + mm + "m") == Some(DigitsValue(hs) * 60 + DigitsValue(mm))
  {
    FormattedParts(hs, mm);
  }

  /** The hours, the "h " and the two minute digits sit at fixed places from the end. */
  lemma FormattedParts(hs: string, mm: string)
    requires |mm| == 2
    ensures var r := hs + "h " + mm + "m";
      && |r| == |hs| + 5 && r[|r| - 1] == 'm'
      && r[..|r| - 5] == hs && r[|r| - 5..|r| - 3] == "h " && r[|r| - 3..|r| - 1] == mm
  {
    var r := hs + "h " + mm + "m";
    assert r == hs + ("h " + mm + "m");
  }

  lemma PadStart2Value(s: string)
    requires 1 <= |s| <= 2 && AllDigits(s)
    ensures |PadStart2(s)| == 2 && AllDigits(PadStart2(s)) && DigitsValue(PadStart2(s)) == DigitsValue(s)
  {
    if |s| == 1 {
      var r := PadStart2(s);
      assert r[..1] == "0";
      assert DigitsValue("0") == 0;
    }
  }

  lemma FormatMinutesExamples()
    ensures FormatMinutes(None) == "0h 00m"
    ensures FormatMinutes(Some(-5)) == "0h 00m"
    ensures FormatMinutes(Some(125)) == "2h 05m"
  {
  }
}
