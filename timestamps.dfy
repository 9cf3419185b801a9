/**
 * `format_seconds` of the SubRip and WebVTT formatters: a time offset, already
 * truncated to whole seconds and milliseconds, rendered as `H:MM:SS<sep>mmm`
 * (the cue timing layout of WebVTT and SubRip). The two formatters carry
 * identical copies of this code that differ only in the separator, so it is
 * defined once here with the separator as a parameter.
 */
module Timestamps {
  import opened Wrappers
  import opened Decimal

  /** A time offset as `format_seconds` derives it from its float argument:
      `int(seconds)` and `int((seconds - whole_seconds) * 1000)`. */
  datatype Time = Time(whole: nat, millis: nat)

  /** What the truncation of a non-negative float always yields. */
  predicate Truncated(t: Time) {
    t.millis < 1000
  }

  /** The four numeric fields of a rendered timestamp. */
  datatype Clock = Clock(hours: nat, minutes: nat, seconds: nat, millis: nat)

  /** The time offset a clock reading denotes. */
  function TimeOf(c: Clock): Time {
    Time(c.hours * 3600 + c.minutes * 60 + c.seconds, c.millis)
  }

  /** `whole_seconds // 3600`, `(whole_seconds % 3600) // 60`, `whole_seconds % 60`. */
  function ClockOf(t: Time): Clock
  {
    Clock(t.whole / 3600, (t.whole % 3600) / 60, t.whole % 60, t.millis)
  }

  /** The decomposition adds back up to the offset, with minutes and seconds below 60. */
  lemma ClockDecomposes(t: Time)
    ensures var c := ClockOf(t); TimeOf(c) == t && c.minutes < 60 && c.seconds < 60
  {
    var w := t.whole;
    var q, r := w / 3600, w % 3600;
    assert w == q * 3600 + r && r < 3600;
    var m, sec := r / 60, r % 60;
    assert r == m * 60 + sec && sec < 60;
    SecondsOfMinute(w, q * 60 + m, sec);
  }

  /** `w % 60` only depends on what is left below a whole minute. */
  lemma SecondsOfMinute(w: nat, minutes: nat, sec: nat)
    requires w == minutes * 60 + sec && sec < 60
    ensures w % 60 == sec
  {
  }

  /** Hours are not capped: the decomposition is the only one with minutes and seconds below 60. */
  lemma ClockUnique(t: Time, c: Clock)
    requires TimeOf(c) == t && c.minutes < 60 && c.seconds < 60
    ensures c == ClockOf(t)
  {
    var below := c.minutes * 60 + c.seconds;
    assert below < 3600;
    assert t.whole == c.hours * 3600 + below;
    assert t.whole / 3600 == c.hours && t.whole % 3600 == below;
    assert below / 60 == c.minutes && below % 60 == c.seconds;
  }

  /** `f"{hours:02d}:{minutes:02d}:{seconds:02d}{sep}{milliseconds:03d}"`. */
  function FormatSeconds(t: Time, sep: char): string
  {
    var c := ClockOf(t);
    Padded(c.hours, 2) + ":" + Padded(c.minutes, 2) + ":" + Padded(c.seconds, 2)
      + [sep] + Padded(c.millis, 3)
  }

  /** `SrtFormatter.format_seconds`: the millisecond separator is a comma. */
  function SrtTimestamp(t: Time): string {
    FormatSeconds(t, ',')
  }

  /** `VttFormatter.format_seconds`: the millisecond separator is a full stop. */
  function VttTimestamp(t: Time): string {
    FormatSeconds(t, '.')
  }

  /** The layout `^\d+:\d\d:\d\d<sep>\d\d\d$`, with the hour field at least two digits. */
  predicate Shaped(s: string, sep: char) {
    var n := |s|;
    && n >= 12
    && AllDigits(s[..n - 10]) && s[n - 10] == ':'
    && AllDigits(s[n - 9..n - 7]) && s[n - 7] == ':'
    && AllDigits(s[n - 6..n - 4]) && s[n - 4] == sep
    && AllDigits(s[n - 3..])
  }

  /** Reads a timestamp back: split on the colons and the separator, read each field's digits. */
  function ParseClock(s: string, sep: char): Option<Clock>
  {
    if !Shaped(s, sep) then None
    else
      var n := |s|;
      Some(Clock(Value(s[..n - 10]), Value(s[n - 9..n - 7]), Value(s[n - 6..n - 4]), Value(s[n - 3..])))
  }

  /** Where the fields sit in `H:MM:SS<sep>mmm`, counted from the end. */
  lemma FieldPositions(h: string, m: string, sec: string, sep: char, ms: string)
    requires |m| == 2 && |sec| == 2 && |ms| == 3
    ensures var s := h + ":" + m + ":" + sec + [sep] + ms; var n := |s|;
      && n == |h| + 10
      && s[..n - 10] == h && s[n - 10] == ':'
      && s[n - 9..n - 7] == m && s[n - 7] == ':'
      && s[n - 6..n - 4] == sec && s[n - 4] == sep
      && s[n - 3..] == ms
  {
  }

  lemma SmallPowers()
    ensures Pow10(2) == 100 && Pow10(3) == 1000
  {
    assert Pow10(1) == 10;
  }

  /** The rendered timestamp has the documented layout; the hour field is two digits
      exactly for offsets below 100 hours and grows beyond that. */
  lemma FormatLayout(t: Time, sep: char)
    requires Truncated(t)
    ensures Shaped(FormatSeconds(t, sep), sep)
    ensures var c := ClockOf(t); var s := FormatSeconds(t, sep);
      && s[..|s| - 10] == Padded(c.hours, 2)
      && (|s| == 12 <==> c.hours < 100)
  {
    ClockDecomposes(t);
    SmallPowers();
    var c := ClockOf(t);
    PaddedReadsBack(c.hours, 2);
    PaddedReadsBack(c.minutes, 2);
    PaddedReadsBack(c.seconds, 2);
    PaddedReadsBack(c.millis, 3);
    PaddedWidth(c.hours, 2);
    PaddedWidth(c.minutes, 2);
    PaddedWidth(c.seconds, 2);
    PaddedWidth(c.millis, 3);
    FieldPositions(Padded(c.hours, 2), Padded(c.minutes, 2), Padded(c.seconds, 2), sep, Padded(c.millis, 3));
  }

  /** Round trip: reading the rendered timestamp back gives hours, minutes, seconds and milliseconds again. */
  lemma RoundTrip(t: Time, sep: char)
    requires Truncated(t)
    ensures ParseClock(FormatSeconds(t, sep), sep) == Some(ClockOf(t))
    ensures TimeOf(ParseClock(FormatSeconds(t, sep), sep).value) == t
  {
    FormatLayout(t, sep);
    ClockDecomposes(t);
    var c := ClockOf(t);
    var s := FormatSeconds(t, sep);
    var n := |s|;
    assert s == Padded(c.hours, 2) + ":" + Padded(c.minutes, 2) + ":" + Padded(c.seconds, 2) + [sep] + Padded(c.millis, 3);
    PaddedReadsBack(c.hours, 2);
    PaddedReadsBack(c.minutes, 2);
    PaddedReadsBack(c.seconds, 2);
    PaddedReadsBack(c.millis, 3);
    assert s[n - 9..n - 7] == Padded(c.minutes, 2);
    assert s[n - 6..n - 4] == Padded(c.seconds, 2);
    assert s[n - 3..] == Padded(c.millis, 3);
  }

  /** The SubRip and WebVTT renderings of one offset agree everywhere except at the
      millisecond separator, which is `,` in one and `.` in the other. */
  lemma SeparatorOnlyDifference(t: Time)
    requires Truncated(t)
    ensures var srt, vtt := SrtTimestamp(t), VttTimestamp(t);
      && |srt| == |vtt|
      && srt[|srt| - 4] == ',' && vtt[|vtt| - 4] == '.'
      && forall k :: 0 <= k < |srt| && k != |srt| - 4 ==> srt[k] == vtt[k]
  {
    FormatLayout(t, ',');
    FormatLayout(t, '.');
  }

  lemma ZeroExample()
    ensures SrtTimestamp(Time(0, 0)) == "00:00:00,000"
    ensures VttTimestamp(Time(0, 0)) == "00:00:00.000"
  {
    assert ClockOf(Time(0, 0)) == Clock(0, 0, 0, 0);
    assert Padded(0, 2) == "00" && Padded(0, 3) == "000";
  }

  /** 3725.4 seconds is 1 hour, 2 minutes and 5.4 seconds. */
  lemma HourExample()
    ensures SrtTimestamp(Time(3725, 400)) == "01:02:05,400"
  {
    assert ClockOf(Time(3725, 400)) == Clock(1, 2, 5, 400);
    assert Padded(1, 2) == "01" && Padded(2, 2) == "02" && Padded(5, 2) == "05";
    assert Padded(400, 3) == "400";
  }

  /** 1.5 seconds in both forms. */
  lemma HalfSecondExample()
    ensures SrtTimestamp(Time(1, 500)) == "00:00:01,500"
    ensures VttTimestamp(Time(1, 500)) == "00:00:01.500"
  {
    assert ClockOf(Time(1, 500)) == Clock(0, 0, 1, 500);
    assert Padded(0, 2) == "00" && Padded(1, 2) == "01" && Padded(500, 3) == "500";
  }

  /** 999 milliseconds are written as they are, never carried into the seconds field. */
  lemma LastMillisecondExample()
    ensures VttTimestamp(Time(1, 999)) == "00:00:01.999"
  {
    assert ClockOf(Time(1, 999)) == Clock(0, 0, 1, 999);
    assert Padded(0, 2) == "00" && Padded(1, 2) == "01" && Padded(999, 3) == "999";
  }

  /** Hours are not capped: 100 hours need a three-digit hour field. */
  lemma HundredHoursExample()
    ensures SrtTimestamp(Time(360000, 0)) == "100:00:00,000"
  {
    assert ClockOf(Time(360000, 0)) == Clock(100, 0, 0, 0);
    assert Digits(100) == "100";
    assert Padded(100, 2) == "100" && Padded(0, 2) == "00" && Padded(0, 3) == "000";
  }
}
