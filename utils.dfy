/** The time-text helpers of the schedule: 12-hour and 24-hour conversion, duration text and
    the "is there any class" test. A time of day is a minute count from midnight, 0 to 1439;
    date-fns' `parse` and `format` are written out as digit and meridiem arithmetic on it. */
module Utils {
  import opened Js
  import opened Types

  const MinutesPerDay := 1440

  /** How many of the first two characters are digits: date-fns reads `HH`, `h` and `mm`
      greedily as one or two digits. */
  function LeadingDigits(s: string): (n: nat)
    ensures n <= 2 && n <= |s| && AllDigits(s[..n])
  {
    if |s| >= 1 && IsDigit(s[0]) then (if |s| >= 2 && IsDigit(s[1]) then 2 else 1) else 0
  }

  /** The two numbers at the head of a clock text, and what follows them. */
  datatype ClockText = ClockText(hour: nat, minute: nat, rest: string)

  /** One or two digits, ':', one or two digits: the head that `HH:mm` and `h:mm a` share. */
  function ReadClock(s: string): Option<ClockText>
  {
    var n := LeadingDigits(s);
    if n == 0 || n == |s| || s[n] != ':' then None
    else
      var tail := s[n + 1..];
      var k := LeadingDigits(tail);
      if k == 0 then None
      else Some(ClockText(DigitsValue(s[..n]), DigitsValue(tail[..k]), tail[k..]))
  }

  /** `parse(s, 'HH:mm', now)`: the minute of the day, or None where date-fns gives an
      invalid date. Trailing white space is allowed, anything else after the minutes is not. */
  function Parse24(s: string): (r: Option<int>)
    ensures r.Some? ==> 0 <= r.value < MinutesPerDay
  {
    match ReadClock(s)
    case None => None
    case Some(c) => ClockTo24(c)
  }

  /** The range checks of `HH:mm`. */
  function ClockTo24(c: ClockText): (r: Option<int>)
    ensures r.Some? ==> 0 <= r.value < MinutesPerDay
  {
    if c.hour <= 23 && c.minute <= 59 && AllSpace(c.rest) then Some(c.hour * 60 + c.minute)
    else None
  }

  /** "AM" or "PM" in any case. */
  predicate IsMeridiem(s: string)
  {
    |s| == 2 && s[0] in "aApP" && s[1] in "mM"
  }

  /** `parse(s, 'h:mm a', now)`, which is also the en-US `p` format: an hour 1 to 12, a
      minute, one space and the meridiem; 12 AM is midnight and 12 PM is noon. */
  function Parse12(s: string): (r: Option<int>)
    ensures r.Some? ==> 0 <= r.value < MinutesPerDay
  {
    match ReadClock(s)
    case None => None
    case Some(c) => ClockTo12(c)
  }

  /** The range checks and the meridiem of `h:mm a`. */
  function ClockTo12(c: ClockText): (r: Option<int>)
    ensures r.Some? ==> 0 <= r.value < MinutesPerDay
  {
    if 1 <= c.hour <= 12 && c.minute <= 59 && |c.rest| >= 3 && c.rest[0] == ' ' &&
       IsMeridiem(c.rest[1..3]) && AllSpace(c.rest[3..])
    then Some((c.hour % 12 + (if c.rest[1] in "pP" then 12 else 0)) * 60 + c.minute)
    else None
  }

  /** `format(t, 'HH:mm')`. */
  function Format24(t: int): string
    requires 0 <= t < MinutesPerDay
  {
    Pad2(t / 60) + ":" + Pad2(t % 60)
  }

  /** The hour on a 12-hour clock face. */
  function Hour12(h: int): int
  {
    if h % 12 == 0 then 12 else h % 12
  }

  /** `format(t, 'p')` in the en-US locale, e.g. "9:05 AM". */
  function Format12(t: int): string
    requires 0 <= t < MinutesPerDay
  {
    NatToString(Hour12(t / 60)) + ":" + Pad2(t % 60) + (if t / 60 < 12 then " AM" else " PM")
  }

  /** The fallback test of `convertTo24Hour`: the text before the first ':' and the first word
      of the text after it are both non-empty and start, for `parseInt`, with a number. */
  predicate HasNumericParts(s: string)
  {
    var hours := Before(s, ':');
    match SecondPiece(s, ':')
    case None => false
    case Some(minutes) =>
      hours != "" && minutes != "" && ParseInt(hours).Int? && ParseInt(FirstWord(minutes)).Int?
  }

  /** `convertTo24Hour`: "9:00 AM" becomes "09:00"; other text with numeric parts around ':'
      is kept up to its first space, unpadded; anything else becomes "". */
  function ConvertTo24Hour(s: string): string
  {
    if s == "" then ""
    else
      match Parse12(s)
      case Some(t) => Format24(t)
      case None => if HasNumericParts(s) then FirstWord(s) else ""
  }

  /** `formatTo12Hour`: "" stays "", a 24-hour time becomes 12-hour text, and text that does
      not parse comes back unchanged. */
  function FormatTo12Hour(s: string): string
  {
    if s == "" then ""
    else
      match Parse24(s)
      case Some(t) => Format12(t)
      case None => s
  }

  /** `formatDuration`: "1h 30m", "2h", "45m" or "0m"; "" for NaN and for a negative count. */
  function FormatDuration(minutes: Num): string
  {
    match minutes
    case NaN => ""
    case Int(n) => if n < 0 then "" else DurationText(n / 60, n % 60)
  }

  /** The hours part, the minutes part, the space between them when both are there, and
      "0m" when neither is. */
  function DurationText(hours: nat, minutes: nat): string
  {
    var h := if hours > 0 then NatToString(hours) + "h" else "";
    var result := if minutes > 0 then h + (if h != "" then " " else "") + NatToString(minutes) + "m" else h;
    if result == "" then "0m" else result
  }

  /** `hasSchedule`: some day has at least one entry. */
  predicate HasSchedule(s: Schedule)
  {
    exists d :: d in s && |s[d]| > 0
  }

  // ----- Round trips of the time codec -----

  /** Reading a clock text built from its parts gives the parts back. */
  lemma {:induction false} ReadClockOfParts(h: string, m: string, rest: string)
    requires 1 <= |h| <= 2 && AllDigits(h) && 1 <= |m| <= 2 && AllDigits(m)
    requires rest == [] || !IsDigit(rest[0])
    ensures ReadClock(h + ":" + m + rest) == Some(ClockText(DigitsValue(h), DigitsValue(m), rest))
  {
    var s := h + ":" + m + rest;
    assert LeadingDigits(s) == |h| by {
      assert s[0] == h[0];
      if |h| == 1 { assert s[1] == ':'; } else { assert s[1] == h[1] && s[2] == ':'; }
    }
    assert s[|h|] == ':' && s[..|h|] == h;
    var tail := s[|h| + 1..];
    assert tail == m + rest;
    assert LeadingDigits(tail) == |m| by {
      assert tail[0] == m[0];
      if |m| == 2 { assert tail[1] == m[1]; if |tail| > 2 { assert tail[2] == rest[0]; } }
      else if |tail| > 1 { assert tail[1] == rest[0]; }
    }
    assert tail[..|m|] == m && tail[|m|..] == rest;
  }

  /** The same for a text `s` built from those parts, read as the clock text `c`. */
  lemma ReadClockAt(s: string, h: string, m: string, rest: string, c: ClockText)
    requires 1 <= |h| <= 2 && AllDigits(h) && 1 <= |m| <= 2 && AllDigits(m)
    requires rest == [] || !IsDigit(rest[0])
    requires s == h + ":" + m + rest && c == ClockText(DigitsValue(h), DigitsValue(m), rest)
    ensures ReadClock(s) == Some(c)
  {
    ReadClockOfParts(h, m, rest);
  }

  /** Every `HH:mm` text date-fns writes, it reads back as the same minute. */
  lemma Parse24OfFormat24(t: int)
    requires 0 <= t < MinutesPerDay
    ensures Parse24(Format24(t)) == Some(t)
  {
    ReadClockOfParts(Pad2(t / 60), Pad2(t % 60), []);
    assert Format24(t) == Pad2(t / 60) + ":" + Pad2(t % 60) + [];
  }

  /** The 12-hour clock face hour and the meridiem give the hour of the day back. */
  lemma Hour12Back(h: int)
    requires 0 <= h < 24
    ensures 1 <= Hour12(h) <= 12
    ensures Hour12(h) % 12 + (if h >= 12 then 12 else 0) == h
  {
  }

  /** `h:mm a` parsing of an hour, padded minutes and a meridiem. */
  lemma {:induction false} Parse12OfParts(s: string, h: nat, m: nat, pm: bool, t: int)
    requires 1 <= h <= 12 && m <= 59
    requires s == NatToString(h) + ":" + Pad2(m) + (if pm then " PM" else " AM")
    requires t == (h % 12 + (if pm then 12 else 0)) * 60 + m
    ensures Parse12(s) == Some(t)
  {
    var c := ClockText(h, m, if pm then " PM" else " AM");
    ReadClock12(s, h, m, pm, c);
    MeridiemRead(h, m, pm, c, t);
    Parse12OfClock(s, c, t);
  }

  /** The clock text read from an hour, padded minutes and a meridiem. */
  lemma ReadClock12(s: string, h: nat, m: nat, pm: bool, c: ClockText)
    requires 1 <= h <= 12 && m <= 59
    requires s == NatToString(h) + ":" + Pad2(m) + (if pm then " PM" else " AM")
    requires c == ClockText(h, m, if pm then " PM" else " AM")
    ensures ReadClock(s) == Some(c)
  {
    var mer := if pm then " PM" else " AM";
    assert mer[0] == ' ';
    TwoDigitNumeral(h);
    ReadClockAt(s, NatToString(h), Pad2(m), mer, c);
  }

  /** The range checks and the meridiem of `h:mm a` accept " AM" and " PM". */
  lemma MeridiemRead(h: nat, m: nat, pm: bool, c: ClockText, t: int)
    requires 1 <= h <= 12 && m <= 59
    requires c == ClockText(h, m, if pm then " PM" else " AM")
    requires t == (h % 12 + (if pm then 12 else 0)) * 60 + m
    ensures ClockTo12(c) == Some(t)
  {
    var mer := c.rest;
    assert mer[0] == ' ' && mer[1..3] == (if pm then "PM" else "AM") && mer[3..] == [];
    assert IsMeridiem(mer[1..3]) && AllSpace(mer[3..]);
    assert (mer[1] in "pP") == pm;
  }

  /** A number below 100 is written with one or two digits. */
  lemma TwoDigitNumeral(n: nat)
    requires n < 100
    ensures 1 <= |NatToString(n)| <= 2
  {
    if n >= 10 {
      assert |NatToString(n / 10)| == 1;
    }
  }

  /** `h:mm a` parsing is the 12-hour check of the clock text read. */
  lemma Parse12OfClock(s: string, c: ClockText, t: int)
    requires ReadClock(s) == Some(c) && ClockTo12(c) == Some(t)
    ensures Parse12(s) == Some(t)
  {
  }

  /** Every 12-hour text `format(t, 'p')` writes, `h:mm a` parsing reads back as the same minute. */
  lemma {:induction false} Parse12OfFormat12(t: int)
    requires 0 <= t < MinutesPerDay
    ensures Parse12(Format12(t)) == Some(t)
  {
    var h, m := t / 60, t % 60;
    var mer := if h < 12 then " AM" else " PM";
    Format12Of(t, h, m, NatToString(Hour12(h)), Pad2(m), mer);
    Hour12Back(h);
    Parse12OfParts(Format12(t), Hour12(h), m, h >= 12, t);
  }

  /** Converting 12-hour text that date-fns wrote gives the zero-padded 24-hour text. */
  lemma ConvertTo24HourOfFormat12(t: int)
    requires 0 <= t < MinutesPerDay
    ensures ConvertTo24Hour(Format12(t)) == Format24(t)
  {
    Parse12OfFormat12(t);
  }

  /** Formatting 24-hour text that date-fns wrote gives its 12-hour text. */
  lemma FormatTo12HourOfFormat24(t: int)
    requires 0 <= t < MinutesPerDay
    ensures FormatTo12Hour(Format24(t)) == Format12(t)
  {
    Parse24OfFormat24(t);
  }

  /** A zero-padded "HH:MM" text with hour 00..23 and minute 00..59. */
  predicate IsPadded24(s: string)
  {
    |s| == 5 && AllDigits(s[..2]) && s[2] == ':' && AllDigits(s[3..]) &&
    DigitsValue(s[..2]) <= 23 && DigitsValue(s[3..]) <= 59
  }

  /** Two digits are the padded text of their own value. */
  lemma TwoDigitsArePadded(d: string)
    requires |d| == 2 && AllDigits(d)
    ensures DigitsValue(d) < 100 && Pad2(DigitsValue(d)) == d
  {
    assert d[..1][..0] == [] && d[..1][0] == d[0];
    assert DigitsValue(d[..1]) == DigitValue(d[0]);
    assert DigitsValue(d) == DigitValue(d[0]) * 10 + DigitValue(d[1]);
    assert DigitChar(DigitValue(d[0])) == d[0] && DigitChar(DigitValue(d[1])) == d[1];
  }

  /** The padded texts are exactly what `format(t, 'HH:mm')` writes. */
  lemma {:induction false} PaddedIsFormat24(s: string) returns (t: int)
    requires IsPadded24(s)
    ensures 0 <= t < MinutesPerDay && Format24(t) == s
  {
    var h, m := DigitsValue(s[..2]), DigitsValue(s[3..]);
    TwoDigitsArePadded(s[..2]);
    TwoDigitsArePadded(s[3..]);
    t := h * 60 + m;
    assert t / 60 == h && t % 60 == m;
    assert s == s[..2] + ":" + s[3..];
  }

  /** `convertTo24Hour(formatTo12Hour(s)) == s` for every zero-padded 24-hour time. */
  lemma {:induction false} TwelveHourRoundTrip(s: string)
    requires IsPadded24(s)
    ensures ConvertTo24Hour(FormatTo12Hour(s)) == s
  {
    var t := PaddedIsFormat24(s);
    FormatTo12HourOfFormat24(t);
    ConvertTo24HourOfFormat12(t);
  }

  /** `formatTo12Hour(convertTo24Hour(s)) == s` for every 12-hour text date-fns writes. */
  lemma {:induction false} TwentyFourHourRoundTrip(t: int)
    requires 0 <= t < MinutesPerDay
    ensures FormatTo12Hour(ConvertTo24Hour(Format12(t))) == Format12(t)
  {
    ConvertTo24HourOfFormat12(t);
    FormatTo12HourOfFormat24(t);
  }

  /** What `convertTo24Hour` does with a time that is already in `H:mm` or `HH:mm` form: it
      is not 12-hour text, so the fallback keeps it exactly as written, padded or not. */
  lemma {:induction false} ConvertTo24HourKeepsClock(h: string, m: string)
    requires 1 <= |h| <= 2 && AllDigits(h) && |m| == 2 && AllDigits(m)
    ensures ConvertTo24Hour(h + ":" + m) == h + ":" + m
  {
    ClockIsNot12Hour(h, m);
    ClockHasNumericParts(h, m);
    ClockIsOneWord(h, m);
  }

  /** A bare clock text has no meridiem, so `h:mm a` parsing fails. */
  lemma ClockIsNot12Hour(h: string, m: string)
    requires 1 <= |h| <= 2 && AllDigits(h) && |m| == 2 && AllDigits(m)
    ensures Parse12(h + ":" + m).None?
  {
    ReadClockOfParts(h, m, []);
    assert h + ":" + m + [] == h + ":" + m;
  }

  /** A bare clock text passes the fallback test of `convertTo24Hour`. */
  lemma ClockHasNumericParts(h: string, m: string)
    requires 1 <= |h| <= 2 && AllDigits(h) && |m| == 2 && AllDigits(m)
    ensures HasNumericParts(h + ":" + m)
  {
    DigitsWithout(h, ':');
    DigitsWithout(m, ':');
    DigitsWithout(m, ' ');
    SplitAtFirst(h, ':', m);
    BeforeWithoutSep(m, ':');
    BeforeWithoutSep(m, ' ');
    ParseIntOfDigitHead(h);
    ParseIntOfDigitHead(m);
  }

  /** A bare clock text has no space, so its first word is all of it. */
  lemma ClockIsOneWord(h: string, m: string)
    requires 1 <= |h| <= 2 && AllDigits(h) && |m| == 2 && AllDigits(m)
    ensures FirstWord(h + ":" + m) == h + ":" + m
  {
    var s := h + ":" + m;
    assert ' ' !in s by {
      assert forall i :: 0 <= i < |s| ==> s[i] == ':' || IsDigit(s[i]);
    }
    BeforeWithoutSep(s, ' ');
  }

  /** So a one-digit hour stays unpadded and is not the text `format(t, 'HH:mm')` writes. */
  lemma UnpaddedHourKept(h: nat, m: nat)
    requires h <= 9 && m <= 59
    ensures ConvertTo24Hour(NatToString(h) + ":" + Pad2(m)) == NatToString(h) + ":" + Pad2(m)
    ensures ConvertTo24Hour(NatToString(h) + ":" + Pad2(m)) != Format24(h * 60 + m)
  {
    ConvertTo24HourKeepsClock(NatToString(h), Pad2(m));
  }

  // ----- Duration text -----

  /** A numeral followed by a unit letter is one word. */
  lemma {:induction false} NumeralWord(n: nat, unit: char)
    requires !IsDigit(unit) && unit != ' '
    ensures ' ' !in NatToString(n) + [unit]
  {
    DigitsWithout(NatToString(n), ' ');
  }

  /** The duration text, by which parts it has. */
  lemma {:induction false} DurationShape(hours: nat, minutes: nat)
    ensures hours > 0 && minutes > 0 ==>
      DurationText(hours, minutes) == (NatToString(hours) + "h") + [' '] + (NatToString(minutes) + "m")
    ensures hours > 0 && minutes == 0 ==> DurationText(hours, minutes) == NatToString(hours) + "h"
    ensures hours == 0 ==> DurationText(hours, minutes) == NatToString(minutes) + "m"
  {
    if hours == 0 && minutes > 0 {
      assert "" + "" + NatToString(minutes) + "m" == NatToString(minutes) + "m";
    } else if hours == 0 {
      assert NatToString(0) == "0";
    }
  }

  /** `parseInt` reads the numeral of a word made of a numeral and a unit letter. */
  lemma {:induction false} ParseIntOfWord(n: nat, unit: char)
    requires !IsDigit(unit) && unit != ' ' && unit != 'x' && unit != 'X'
    ensures ParseInt(FirstWord(NatToString(n) + [unit])) == Int(n)
  {
    NumeralWord(n, unit);
    BeforeWithoutSep(NatToString(n) + [unit], ' ');
    ParseIntOfNumeral(n, [unit]);
  }

  /** ... and only that word when more text follows after a space. */
  lemma {:induction false} ParseIntOfFirstWord(n: nat, unit: char, more: string)
    requires !IsDigit(unit) && unit != ' ' && unit != 'x' && unit != 'X'
    ensures ParseInt(FirstWord(NatToString(n) + [unit] + [' '] + more)) == Int(n)
  {
    NumeralWord(n, unit);
    SplitAtFirst(NatToString(n) + [unit], ' ', more);
    ParseIntOfNumeral(n, [unit]);
  }

  /** Where the duration text goes back through `parseInt` (the end-time fallback and the
      duration of an edited class), it is read only up to its unit letter: "1h 30m" is 1. */
  lemma {:induction false} ParseIntOfDuration(n: int)
    requires n >= 0
    ensures ParseInt(FirstWord(FormatDuration(Int(n)))) == Int(if n >= 60 then n / 60 else n)
  {
    var h, m := n / 60, n % 60;
    assert FormatDuration(Int(n)) == DurationText(h, m);
    DurationShape(h, m);
    if h > 0 {
      if m > 0 {
        ParseIntOfFirstWord(h, 'h', NatToString(m) + "m");
      } else {
        ParseIntOfWord(h, 'h');
      }
    } else {
      assert m == n;
      ParseIntOfWord(m, 'm');
    }
  }

  /** `formatDuration` writes text for every count it accepts, and none for the others. */
  lemma FormatDurationEmptyIffInvalid(n: Num)
    ensures FormatDuration(n) == "" <==> n.NaN? || n.value < 0
  {
  }

  // ----- Worked examples -----

  lemma ConvertTo24HourMorning()
    ensures ConvertTo24Hour("9:00 AM") == "09:00"
  {
    ConvertTo24HourOfFormat12(540);
    TextsAt540();
  }

  lemma ConvertTo24HourAfterMidnight()
    ensures ConvertTo24Hour("12:15 AM") == "00:15"
  {
    ConvertTo24HourOfFormat12(15);
    TextsAt15();
  }

  lemma ConvertTo24HourNoon()
    ensures ConvertTo24Hour("12:30 PM") == "12:30"
  {
    ConvertTo24HourOfFormat12(750);
    TextsAt750();
  }

  lemma FormatTo12HourAfternoon()
    ensures FormatTo12Hour("14:05") == "2:05 PM"
  {
    FormatTo12HourOfFormat24(845);
    TextsAt845();
  }

  lemma FormatTo12HourMidnight()
    ensures FormatTo12Hour("00:30") == "12:30 AM"
  {
    FormatTo12HourOfFormat24(30);
    TextsAt30();
  }

  // The texts date-fns writes for the example times.

  lemma TextsAt540()
    ensures Format12(540) == "9:00 AM" && Format24(540) == "09:00"
  {
    assert NatToString(9) == "9" && Pad2(0) == "00" && Pad2(9) == "09";
    Format12Of(540, 9, 0, "9", "00", " AM");
    Format24Of(540, 9, 0, "09", "00");
    assert "9" + ":" + "00" + " AM" == "9:00 AM";
    assert "09" + ":" + "00" == "09:00";
  }

  lemma TextsAt15()
    ensures Format12(15) == "12:15 AM" && Format24(15) == "00:15"
  {
    assert NatToString(12) == "12" && Pad2(15) == "15" && Pad2(0) == "00";
    Format12Of(15, 0, 15, "12", "15", " AM");
    Format24Of(15, 0, 15, "00", "15");
    assert "12" + ":" + "15" + " AM" == "12:15 AM";
    assert "00" + ":" + "15" == "00:15";
  }

  lemma TextsAt750()
    ensures Format12(750) == "12:30 PM" && Format24(750) == "12:30"
  {
    assert NatToString(12) == "12" && Pad2(30) == "30" && Pad2(12) == "12";
    Format12Of(750, 12, 30, "12", "30", " PM");
    Format24Of(750, 12, 30, "12", "30");
    assert "12" + ":" + "30" + " PM" == "12:30 PM";
    assert "12" + ":" + "30" == "12:30";
  }

  lemma TextsAt845()
    ensures Format12(845) == "2:05 PM" && Format24(845) == "14:05"
  {
    assert NatToString(2) == "2" && Pad2(5) == "05" && Pad2(14) == "14";
    Format12Of(845, 14, 5, "2", "05", " PM");
    Format24Of(845, 14, 5, "14", "05");
    assert "2" + ":" + "05" + " PM" == "2:05 PM";
    assert "14" + ":" + "05" == "14:05";
  }

  lemma TextsAt30()
    ensures Format12(30) == "12:30 AM" && Format24(30) == "00:30"
  {
    assert NatToString(12) == "12" && Pad2(30) == "30" && Pad2(0) == "00";
    Format12Of(30, 0, 30, "12", "30", " AM");
    Format24Of(30, 0, 30, "00", "30");
    assert "12" + ":" + "30" + " AM" == "12:30 AM";
    assert "00" + ":" + "30" == "00:30";
  }

  /** `format(t, 'p')` from its pieces. */
  lemma Format12Of(t: int, h: nat, m: nat, hs: string, ms: string, mer: string)
    requires 0 <= t < MinutesPerDay && h == t / 60 && m == t % 60
    requires hs == NatToString(Hour12(h)) && ms == Pad2(m) && mer == (if h < 12 then " AM" else " PM")
    ensures Format12(t) == hs + ":" + ms + mer
  {
  }

  /** `format(t, 'HH:mm')` from its pieces. */
  lemma Format24Of(t: int, h: nat, m: nat, hs: string, ms: string)
    requires 0 <= t < MinutesPerDay && h == t / 60 && m == t % 60
    requires hs == Pad2(h) && ms == Pad2(m)
    ensures Format24(t) == hs + ":" + ms
  {
  }

  lemma FormatDurationHourAndMinutes()
    ensures FormatDuration(Int(90)) == "1h 30m"
  {
    DurationShape(1, 30);
    assert NatToString(30) == "30";
  }

  lemma FormatDurationWholeHours()
    ensures FormatDuration(Int(120)) == "2h"
  {
    DurationShape(2, 0);
  }
}
