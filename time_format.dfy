/** `formatTime`, identical in both clients: seconds to an `m:ss` clock string. */
module TimeFormat {
  import opened Wrappers
  import opened JsText

  /**
   * `formatTime(seconds)` for a whole (or NaN) number of seconds: NaN gives
   * "0:00"; otherwise the floored minutes, a colon, and the remainder
   * `seconds % 60` padded with one "0" when it is below ten.
   */
  function FormatTime(seconds: JsNumber): (r: string)
    ensures seconds.NaN? ==> r == "0:00"
    ensures seconds.Num? && seconds.value >= 0 ==>
      var s := seconds.value;
      r == NatToString(s / 60) + [':', DigitChar(s % 60 / 10), DigitChar(s % 60 % 10)]
  {
    match seconds
    case NaN => "0:00"
    case Num(s) =>
      var minutes := s / 60;
      var secs := JsRem(s, 60);
      if s >= 0 then
        PaddedSeconds(s % 60);
        assert IntToString(s % 60) == NatToString(s % 60);
        IntToString(minutes) + ":" + (if secs < 10 then "0" else "") + IntToString(secs)
      else
        IntToString(minutes) + ":" + (if secs < 10 then "0" else "") + IntToString(secs)
  }

  /** Reads an `m:ss` string back to seconds: digits, one colon, two digits below 60. */
  function ParseClock(t: string): Option<nat>
  {
    ClockOfParts(Split(t, ':'))
  }

  /** The reading of `m:ss` once the string is split at its colons. */
  function ClockOfParts(parts: seq<string>): Option<nat>
  {
    if |parts| == 2 && |parts[0]| >= 1 && AllDigits(parts[0])
       && |parts[1]| == 2 && AllDigits(parts[1]) && DigitsValue(parts[1]) < 60
    then Some(DigitsValue(parts[0]) * 60 + DigitsValue(parts[1]))
    else None
  }

  /** The two-character, zero-padded spelling of a number of seconds below 60. */
  lemma PaddedSeconds(secs: nat)
    requires secs < 60
    ensures (if secs < 10 then "0" else "") + NatToString(secs) == [DigitChar(secs / 10), DigitChar(secs % 10)]
  {
    if secs >= 10 {
      assert NatToString(secs) == NatToString(secs / 10) + [DigitChar(secs % 10)];
    }
  }

  /** A clock string splits at its one colon into the minutes and the seconds. */
  lemma ClockSplit(m: string, ss: string)
    requires AllDigits(m) && AllDigits(ss)
    ensures Split(m + [':'] + ss, ':') == [m, ss]
  {
    var parts: seq<string> := [m, ss];
    assert Join(parts, ':') == m + [':'] + ss by {
      assert parts[1..] == [ss];
    }
    forall i, j | 0 <= i < |parts| && 0 <= j < |parts[i]| ensures parts[i][j] != ':' {
      assert IsDigit(parts[i][j]);
    }
    SplitJoin(parts, ':');
  }

  /** A well-formed clock string reads back as minutes times sixty plus seconds. */
  lemma ParseClockOf(m: string, ss: string)
    requires |m| >= 1 && AllDigits(m) && |ss| == 2 && AllDigits(ss) && DigitsValue(ss) < 60
    ensures ParseClock(m + [':'] + ss) == Some(DigitsValue(m) * 60 + DigitsValue(ss))
  {
    ClockSplit(m, ss);
    ClockOfTwoParts(m, ss);
  }

  lemma ClockOfTwoParts(m: string, ss: string)
    requires |m| >= 1 && AllDigits(m) && |ss| == 2 && AllDigits(ss) && DigitsValue(ss) < 60
    ensures ClockOfParts([m, ss]) == Some(DigitsValue(m) * 60 + DigitsValue(ss))
  {
  }

  /** Two digits read as tens and units. */
  lemma TwoDigitsValue(a: nat, b: nat)
    requires a < 10 && b < 10
    ensures DigitsValue([DigitChar(a), DigitChar(b)]) == a * 10 + b
  {
    var ss := [DigitChar(a), DigitChar(b)];
    var first := [DigitChar(a)];
    assert first[..0] == [];
    assert DigitsValue(first) == a;
    assert ss[..1] == first;
    assert DigitsValue(ss) == DigitsValue(first) * 10 + DigitValue(ss[1]);
  }

  /** `formatTime` loses nothing on whole non-negative seconds: the clock string reads back. */
  lemma FormatTimeRoundTrip(s: int)
    requires s >= 0
    ensures ParseClock(FormatTime(Num(s))) == Some(s)
  {
    var m := NatToString(s / 60);
    var ss := [DigitChar(s % 60 / 10), DigitChar(s % 60 % 10)];
    ClockParts(s, m, ss);
    SecondsDigits(s, ss);
    ParseClockOf(m, ss);
    assert DigitsValue(m) * 60 + DigitsValue(ss) == s;
  }

  /** The clock string of `s` is its minutes, a colon and its two seconds digits. */
  lemma ClockParts(s: int, m: string, ss: string)
    requires s >= 0 && m == NatToString(s / 60) && ss == [DigitChar(s % 60 / 10), DigitChar(s % 60 % 10)]
    ensures FormatTime(Num(s)) == m + [':'] + ss
  {
  }

  /** The two seconds digits are digits and read as `s % 60`. */
  lemma SecondsDigits(s: int, ss: string)
    requires s >= 0 && ss == [DigitChar(s % 60 / 10), DigitChar(s % 60 % 10)]
    ensures |ss| == 2 && AllDigits(ss) && DigitsValue(ss) == s % 60
  {
    TwoDigitsValue(s % 60 / 10, s % 60 % 10);
  }

  /** The worked examples: a 262-second track shows "4:22", five seconds "0:05", and NaN "0:00". */
  lemma FormatTimeExamples(a: string, b: string)
    requires a == "4:22" && b == "0:05"
    ensures FormatTime(Num(262)) == a
    ensures FormatTime(Num(5)) == b
    ensures FormatTime(NaN) == "0:00"
  {
    ClockOf(262, 4, 2, 2, a);
    ClockOf(5, 0, 0, 5, b);
  }

  /** The clock of `s` when its minutes are a single digit `m` and its seconds read `t` and `u`. */
  lemma ClockOf(s: int, m: nat, t: nat, u: nat, c: string)
    requires s >= 0 && m < 10 && s / 60 == m && s % 60 == t * 10 + u && u < 10
    requires c == [DigitChar(m), ':', DigitChar(t), DigitChar(u)]
    ensures FormatTime(Num(s)) == c
  {
    assert s % 60 / 10 == t && s % 60 % 10 == u;
  }

  /** A negative count keeps JavaScript's floored minutes and signed remainder: -5 shows "-1:0-5". */
  lemma FormatTimeNegative(s: int, m: string)
    requires s == -5 && m == "-1:0-5"
    ensures FormatTime(Num(s)) == m
  {
    assert s / 60 == -1 && JsRem(s, 60) == -5;
    assert NatToString(1) == "1" && NatToString(5) == "5";
  }
}
