/**
 * The display form of an event time: `format_date_suffix` and
 * `format_timestamp`, with the part of `strftime` they use, and a parser
 * for the display form that shows no date or clock information is lost.
 */
module Timestamp {
  import opened Wrappers
  import opened Decimal
  import opened Text

  /**
   * A date and time as `datetime` holds it: calendar fields, wall-clock
   * fields, and the UTC offset in minutes when the value is aware.
   */
  datatype Instant = Instant(year: int, month: int, day: int, hour: int, minute: int,
                             second: int, utcOffset: Option<int>)

  predicate IsLeapYear(year: int) {
    year % 4 == 0 && (year % 100 != 0 || year % 400 == 0)
  }

  function DaysInMonth(year: int, month: int): int
    requires 1 <= month <= 12
  {
    if month == 2 then (if IsLeapYear(year) then 29 else 28)
    else if month in {4, 6, 9, 11} then 30
    else 31
  }

  /** What `datetime` accepts, restricted to the four-digit years `%Y` writes. */
  predicate ValidInstant(i: Instant) {
    1000 <= i.year <= 9999 && 1 <= i.month <= 12 && 1 <= i.day <= DaysInMonth(i.year, i.month) &&
    0 <= i.hour < 24 && 0 <= i.minute < 60 && 0 <= i.second < 60 &&
    (i.utcOffset.Some? ==> -1440 < i.utcOffset.value < 1440)
  }

  type DateTime = i: Instant | ValidInstant(i) witness Instant(2000, 1, 1, 0, 0, 0, None)

  /** The fields the display form shows. */
  datatype WallClock = WallClock(year: int, month: int, day: int, hour: int, minute: int)

  function WallClockOf(dt: DateTime): WallClock {
    WallClock(dt.year, dt.month, dt.day, dt.hour, dt.minute)
  }

  // ---------------------------------------------------------------------
  // Day with ordinal suffix

  /** `format_date_suffix(day)`: the day in decimal followed by st, nd, rd or th. */
  function FormatDateSuffix(day: int): (r: string)
    ensures |r| == |IntToString(day)| + 2
    ensures r[..|r| - 2] == IntToString(day)
    ensures r[|r| - 2..] in {"st", "nd", "rd", "th"}
  {
    if 11 <= day <= 13 then IntToString(day) + "th"
    else if day % 10 == 1 then IntToString(day) + "st"
    else if day % 10 == 2 then IntToString(day) + "nd"
    else if day % 10 == 3 then IntToString(day) + "rd"
    else IntToString(day) + "th"
  }

  /** The English ordinal suffix of n, decided by its last two digits. */
  function EnglishOrdinalSuffix(n: nat): string {
    if 11 <= n % 100 <= 13 then "th"
    else if n % 10 == 1 then "st"
    else if n % 10 == 2 then "nd"
    else if n % 10 == 3 then "rd"
    else "th"
  }

  lemma SamePrefix(a: string, b: string, c: string)
    ensures a + b == a + c <==> b == c
  {
    if a + b == a + c {
      assert b == (a + b)[|a|..];
      assert c == (a + c)[|a|..];
    }
  }

  /** The suffix `FormatDateSuffix` appends, as the source chooses it. */
  lemma DaySuffixChoice(n: nat)
    ensures FormatDateSuffix(n) == NatToString(n) +
      (if 11 <= n <= 13 then "th" else if n % 10 == 1 then "st"
       else if n % 10 == 2 then "nd" else if n % 10 == 3 then "rd" else "th")
  {
  }

  lemma LastDigitOfLastTwo(n: nat)
    ensures n % 10 == (n % 100) % 10
    ensures n < 100 ==> n % 100 == n
  {
    var q, t := n / 100, n % 100;
    assert n == 10 * (10 * q + t / 10) + t % 10;
  }

  /** The source's suffix rule and the English rule, compared without the digits. */
  lemma SuffixRulesAgree(n: nat)
    ensures (if 11 <= n <= 13 then "th" else if n % 10 == 1 then "st"
             else if n % 10 == 2 then "nd" else if n % 10 == 3 then "rd" else "th")
            == EnglishOrdinalSuffix(n)
            <==> !(n >= 100 && 11 <= n % 100 <= 13)
  {
    LastDigitOfLastTwo(n);
  }

  /**
   * The day suffix is the English ordinal suffix exactly when the number is
   * not 111, 112, 113, 211, ...: the 11-13 rule looks at the whole number,
   * not its last two digits. Every day of a month is below 100.
   */
  lemma DaySuffixIsEnglishOrdinal(n: nat)
    ensures FormatDateSuffix(n) == NatToString(n) + EnglishOrdinalSuffix(n)
            <==> !(n >= 100 && 11 <= n % 100 <= 13)
  {
    var source := if 11 <= n <= 13 then "th" else if n % 10 == 1 then "st"
                  else if n % 10 == 2 then "nd" else if n % 10 == 3 then "rd" else "th";
    DaySuffixChoice(n);
    SamePrefix(NatToString(n), source, EnglishOrdinalSuffix(n));
    SuffixRulesAgree(n);
  }

  /** The ordinals 1st, 2nd, 3rd and 4th. */
  lemma DaySuffixExamples()
    ensures FormatDateSuffix(1) == "1st" && FormatDateSuffix(2) == "2nd"
    ensures FormatDateSuffix(3) == "3rd" && FormatDateSuffix(4) == "4th"
  {
    assert NatToString(1) == "1" && NatToString(2) == "2";
    assert NatToString(3) == "3" && NatToString(4) == "4";
  }

  /** The ordinals 11th, 12th and 13th, against 21st and 24th. */
  lemma TwoDigitSuffixExamples()
    ensures FormatDateSuffix(11) == "11th" && FormatDateSuffix(12) == "12th"
    ensures FormatDateSuffix(13) == "13th" && FormatDateSuffix(21) == "21st"
    ensures FormatDateSuffix(24) == "24th"
  {
    assert NatToString(11) == "11" && NatToString(12) == "12" && NatToString(13) == "13";
    assert NatToString(21) == "21" && NatToString(24) == "24";
  }

  // ---------------------------------------------------------------------
  // The strftime directives used: %B %Y %I %M %p (and %%)

  const MonthNames: seq<string> := ["January", "February", "March", "April", "May", "June", "July",
                                    "August", "September", "October", "November", "December"]

  /** `%B` in the English locale: a word without spaces or `%`. */
  function MonthName(month: int): (name: string)
    requires 1 <= month <= 12
    ensures |name| >= 3 && ' ' !in name && '%' !in name
  {
    assert forall k :: 0 <= k < 12 ==> |MonthNames[k]| >= 3 && ' ' !in MonthNames[k] && '%' !in MonthNames[k];
    MonthNames[month - 1]
  }

  /** The month a full English month name stands for. */
  function MonthNumber(name: string): (m: Option<int>)
    ensures m.Some? ==> 1 <= m.value <= 12 && MonthName(m.value) == name
  {
    if name == "January" then Some(1) else if name == "February" then Some(2)
    else if name == "March" then Some(3) else if name == "April" then Some(4)
    else if name == "May" then Some(5) else if name == "June" then Some(6)
    else if name == "July" then Some(7) else if name == "August" then Some(8)
    else if name == "September" then Some(9) else if name == "October" then Some(10)
    else if name == "November" then Some(11) else if name == "December" then Some(12)
    else None
  }

  /** Every month name is recognised as its own month. */
  lemma MonthNameRoundTrip(month: int)
    requires 1 <= month <= 12
    ensures MonthNumber(MonthName(month)) == Some(month)
  {
    if month == 1 {} else if month == 2 {} else if month == 3 {} else if month == 4 {}
    else if month == 5 {} else if month == 6 {} else if month == 7 {} else if month == 8 {}
    else if month == 9 {} else if month == 10 {} else if month == 11 {} else {}
  }

  /** `%I`: the hour on a 12-hour clock, 12 standing for 0. */
  function Hour12(hour: int): (h: int)
    requires 0 <= hour < 24
    ensures 1 <= h <= 12 && h % 12 == hour % 12
  {
    if hour % 12 == 0 then 12 else hour % 12
  }

  /** `%p` in the English locale: AM before noon, PM from noon. */
  function Meridiem(hour: int): (m: string)
    ensures m in {"AM", "PM"} && (m == "AM" <==> hour < 12)
  {
    if hour < 12 then "AM" else "PM"
  }

  /**
   * What `strftime` writes for the directive `%c`. A directive it knows
   * leaves no `%` behind; an unknown one is written out as it stands.
   */
  function Directive(c: char, dt: DateTime): (r: string)
    ensures (c == 'B' || c == 'Y' || c == 'I' || c == 'M' || c == 'p') ==> |r| >= 2 && '%' !in r
  {
    match c
    case 'B' => MonthName(dt.month)
    case 'Y' =>
      DigitsHaveNoSeparator(NatToString(dt.year), '%');
      NatToString(dt.year)
    case 'I' =>
      DigitsHaveNoSeparator(Pad2(Hour12(dt.hour)), '%');
      Pad2(Hour12(dt.hour))
    case 'M' =>
      DigitsHaveNoSeparator(Pad2(dt.minute), '%');
      Pad2(dt.minute)
    case 'p' => Meridiem(dt.hour)
    case '%' => "%"
    case _ => ['%', c]
  }

  /** `dt.strftime(fmt)`: directives are expanded, other characters copied. */
  function Strftime(fmt: string, dt: DateTime): string
    decreases |fmt|
  {
    if |fmt| == 0 then ""
    else if fmt[0] == '%' && |fmt| >= 2 then Directive(fmt[1], dt) + Strftime(fmt[2..], dt)
    else [fmt[0]] + Strftime(fmt[1..], dt)
  }

  /** The format `format_timestamp` writes after the day, " %B %Y - %I:%M %p UTC", piece by piece. */
  const TimestampFormat: string := " %B" + (" %Y" + (" - %I" + (":%M" + (" %p" + " UTC"))))

  /**
   * `format_timestamp(dt)`: the day and its suffix are spliced into the
   * format string, which gives the seven tokens of `DisplayTokens`
   * separated by single spaces.
   */
  function FormatTimestamp(dt: DateTime): (r: string)
    ensures r == Join(DisplayTokens(dt), ' ')
  {
    TimestampLayout(dt);
    Strftime(FormatDateSuffix(dt.day) + TimestampFormat, dt)
  }

  lemma {:induction false} StrftimeLiteral(lit: string, rest: string, dt: DateTime)
    requires '%' !in lit
    ensures Strftime(lit + rest, dt) == lit + Strftime(rest, dt)
    decreases |lit|
  {
    if |lit| > 0 {
      assert lit[0] != '%' && '%' !in lit[1..] by {
        assert lit[0] in lit;
        assert forall k :: 0 <= k < |lit| - 1 ==> lit[1..][k] == lit[k + 1];
      }
      assert (lit + rest)[0] == lit[0];
      assert (lit + rest)[1..] == lit[1..] + rest;
      StrftimeLiteral(lit[1..], rest, dt);
      assert Strftime(lit + rest, dt) == [lit[0]] + Strftime(lit[1..] + rest, dt);
      assert lit + Strftime(rest, dt) == [lit[0]] + (lit[1..] + Strftime(rest, dt));
    } else {
      assert lit + rest == rest;
    }
  }

  lemma {:induction false} StrftimeWallClock(fmt: string, a: DateTime, b: DateTime)
    requires WallClockOf(a) == WallClockOf(b)
    ensures Strftime(fmt, a) == Strftime(fmt, b)
    decreases |fmt|
  {
    if |fmt| > 0 {
      if fmt[0] == '%' && |fmt| >= 2 {
        StrftimeWallClock(fmt[2..], a, b);
      } else {
        StrftimeWallClock(fmt[1..], a, b);
      }
    }
  }

  lemma StrftimeDirective(c: char, rest: string, dt: DateTime)
    ensures Strftime(['%', c] + rest, dt) == Directive(c, dt) + Strftime(rest, dt)
  {
    assert (['%', c] + rest)[2..] == rest;
  }

  /** The seven space-separated tokens of the display form. */
  function DisplayTokens(dt: DateTime): seq<string> {
    [FormatDateSuffix(dt.day), MonthName(dt.month), NatToString(dt.year), "-",
     Pad2(Hour12(dt.hour)) + ":" + Pad2(dt.minute), Meridiem(dt.hour), "UTC"]
  }

  /** No directive of `fmt` is cut off at its end. */
  predicate WholeDirectives(fmt: string)
    decreases |fmt|
  {
    if |fmt| == 0 then true
    else if fmt[0] == '%' then |fmt| >= 2 && WholeDirectives(fmt[2..])
    else WholeDirectives(fmt[1..])
  }

  /** Formatting a concatenation formats each part, when the first ends cleanly. */
  lemma {:induction false} StrftimeAppend(a: string, b: string, dt: DateTime)
    requires WholeDirectives(a)
    ensures Strftime(a + b, dt) == Strftime(a, dt) + Strftime(b, dt)
    decreases |a|, 1
  {
    if |a| == 0 {
      assert a + b == b;
    } else if a[0] == '%' {
      StrftimeAppendDirective(a, b, dt);
    } else {
      assert (a + b)[0] == a[0];
      assert (a + b)[1..] == a[1..] + b;
      StrftimeAppend(a[1..], b, dt);
    }
  }

  lemma {:induction false} StrftimeAppendDirective(a: string, b: string, dt: DateTime)
    requires |a| >= 2 && a[0] == '%' && WholeDirectives(a[2..])
    ensures Strftime(a + b, dt) == Strftime(a, dt) + Strftime(b, dt)
    decreases |a|, 0
  {
    assert (a + b)[..2] == a[..2];
    assert (a + b)[2..] == a[2..] + b;
    StrftimeAppend(a[2..], b, dt);
  }

  /** The date pieces of the format, and its closing " UTC". */
  lemma StrftimeDatePieces(dt: DateTime)
    ensures Strftime(" %B", dt) == " " + MonthName(dt.month)
    ensures Strftime(" %Y", dt) == " " + NatToString(dt.year)
    ensures Strftime(" UTC", dt) == " " + "UTC"
  {
    assert " %B"[1..] == "%B" && "%B"[2..] == "";
    assert " %Y"[1..] == "%Y" && "%Y"[2..] == "";
    assert " UTC"[1..] == "UTC" && " UTC"[2..] == "TC" && " UTC"[3..] == "C" && " UTC"[4..] == "";
  }

  /** The clock pieces of the format. */
  lemma StrftimeClockPieces(dt: DateTime)
    ensures Strftime(" - %I", dt) == " " + ("-" + (" " + Pad2(Hour12(dt.hour))))
    ensures Strftime(":%M", dt) == ":" + Pad2(dt.minute)
    ensures Strftime(" %p", dt) == " " + Meridiem(dt.hour)
  {
    assert " - %I"[1..] == "- %I" && " - %I"[2..] == " %I" && " - %I"[3..] == "%I" && "%I"[2..] == "";
    assert ":%M"[1..] == "%M" && "%M"[2..] == "";
    assert " %p"[1..] == "%p" && "%p"[2..] == "";
  }

  lemma Associative(a: string, b: string, c: string)
    ensures (a + b) + c == a + (b + c)
  {
  }

  lemma StrftimeTail(dt: DateTime)
    ensures Strftime(TimestampFormat, dt) ==
      " " + (MonthName(dt.month) + (" " + (NatToString(dt.year) + (" " + ("-" + (" " +
      (Pad2(Hour12(dt.hour)) + (":" + (Pad2(dt.minute) + (" " + (Meridiem(dt.hour) + (" " + "UTC"))))))))))))
  {
    var p1, p2, p3, p4, p5, p6 := " %B", " %Y", " - %I", ":%M", " %p", " UTC";
    StrftimeDatePieces(dt);
    StrftimeClockPieces(dt);
    assert WholeDirectives(p1) && WholeDirectives(p2) && WholeDirectives(p3);
    assert WholeDirectives(p4) && WholeDirectives(p5);
    var r6 := " " + "UTC";
    var r5 := " " + (Meridiem(dt.hour) + r6);
    StrftimeAppend(p5, p6, dt);
    Associative(" ", Meridiem(dt.hour), r6);
    assert Strftime(p5 + p6, dt) == r5;
    var r4 := ":" + (Pad2(dt.minute) + r5);
    StrftimeAppend(p4, p5 + p6, dt);
    Associative(":", Pad2(dt.minute), r5);
    assert Strftime(p4 + (p5 + p6), dt) == r4;
    var hh := Pad2(Hour12(dt.hour));
    var r3 := " " + ("-" + (" " + (hh + r4)));
    StrftimeAppend(p3, p4 + (p5 + p6), dt);
    Associative(" ", "-" + (" " + hh), r4);
    Associative("-", " " + hh, r4);
    Associative(" ", hh, r4);
    assert Strftime(p3 + (p4 + (p5 + p6)), dt) == r3;
    var r2 := " " + (NatToString(dt.year) + r3);
    StrftimeAppend(p2, p3 + (p4 + (p5 + p6)), dt);
    Associative(" ", NatToString(dt.year), r3);
    assert Strftime(p2 + (p3 + (p4 + (p5 + p6))), dt) == r2;
    StrftimeAppend(p1, p2 + (p3 + (p4 + (p5 + p6))), dt);
    Associative(" ", MonthName(dt.month), r2);
  }

  /**
   * The display form is seven tokens separated by single spaces: day and
   * suffix, the full month name, the year, "-", the 12-hour hour and the
   * minute as two digits each joined by ":", AM before noon and PM from
   * noon, and "UTC".
   */
  lemma TimestampLayout(dt: DateTime)
    ensures Strftime(FormatDateSuffix(dt.day) + TimestampFormat, dt) == Join(DisplayTokens(dt), ' ')
  {
    var day := FormatDateSuffix(dt.day);
    assert '%' !in day by {
      assert day == NatToString(dt.day) + day[|day| - 2..];
      DigitsHaveNoSeparator(NatToString(dt.day), '%');
    }
    StrftimeLiteral(day, TimestampFormat, dt);
    StrftimeTail(dt);
    var t := DisplayTokens(dt);
    var hh, mm := Pad2(Hour12(dt.hour)), Pad2(dt.minute);
    assert Join(t[6..], ' ') == "UTC";
    assert Join(t[5..], ' ') == t[5] + (" " + "UTC");
    assert Join(t[4..], ' ') == hh + (":" + (mm + (" " + Join(t[5..], ' ')))) by {
      assert t[4] == hh + (":" + mm);
    }
    assert Join(t[3..], ' ') == "-" + (" " + Join(t[4..], ' '));
    assert Join(t[2..], ' ') == t[2] + (" " + Join(t[3..], ' '));
    assert Join(t[1..], ' ') == t[1] + (" " + Join(t[2..], ' '));
    assert Join(t, ' ') == day + (" " + Join(t[1..], ' '));
  }

  // ---------------------------------------------------------------------
  // Reading the display form back

  /** A day written as `FormatDateSuffix` writes it. */
  function ParseOrdinalDay(token: string): Option<int> {
    if |token| >= 3 && Canonical(token[..|token| - 2])
       && FormatDateSuffix(DigitsValue(token[..|token| - 2])) == token
    then Some(DigitsValue(token[..|token| - 2]))
    else None
  }

  /** Two decimal digits. */
  function ParsePadded(token: string): Option<int> {
    if |token| == 2 && AllDigits(token) then Some(DigitsValue(token)) else None
  }

  /** Reads "hh:mm" and "AM" or "PM" back as a 24-hour hour and a minute. */
  function ParseClock(clock: string, meridiem: string): Option<(int, int)> {
    var parts := Split(clock, ':');
    if |parts| != 2 then None
    else
      var h12 :- ParsePadded(parts[0]);
      var minute :- ParsePadded(parts[1]);
      if meridiem == "AM" then Some((h12 % 12, minute))
      else if meridiem == "PM" then Some((h12 % 12 + 12, minute))
      else None
  }

  /** Recovers the wall-clock fields from "<day><suffix> <Month> <YYYY> - <hh>:<mm> <AM|PM> UTC". */
  function ParseDisplay(s: string): Option<WallClock> {
    var t := Split(s, ' ');
    if |t| != 7 || t[3] != "-" || t[6] != "UTC" then None
    else
      var day :- ParseOrdinalDay(t[0]);
      var month :- MonthNumber(t[1]);
      var year :- ParseNat(t[2]);
      var time :- ParseClock(t[4], t[5]);
      Some(WallClock(year, month, day, time.0, time.1))
  }

  lemma DigitsHaveNoSeparator(s: string, c: char)
    requires AllDigits(s) && !IsDigit(c)
    ensures c !in s
  {
  }

  /** No display token contains a space, so splitting on spaces recovers them. */
  lemma SplitDisplay(dt: DateTime)
    ensures Split(FormatTimestamp(dt), ' ') == DisplayTokens(dt)
  {
    var tokens := DisplayTokens(dt);
    var day := tokens[0];
    assert day == NatToString(dt.day) + day[|day| - 2..];
    DigitsHaveNoSeparator(NatToString(dt.day), ' ');
    MonthNameRoundTrip(dt.month);
    DigitsHaveNoSeparator(tokens[2], ' ');
    DigitsHaveNoSeparator(Pad2(Hour12(dt.hour)), ' ');
    DigitsHaveNoSeparator(Pad2(dt.minute), ' ');
    assert ' ' !in tokens[4];
    SplitJoin(tokens, ' ');
  }

  /** The "hh:mm" and AM/PM tokens read back as the hour and the minute. */
  lemma ClockRoundTrip(hour: int, minute: int)
    requires 0 <= hour < 24 && 0 <= minute < 60
    ensures ParseClock(Pad2(Hour12(hour)) + ":" + Pad2(minute), Meridiem(hour)) == Some((hour, minute))
  {
    var hh, mm := Pad2(Hour12(hour)), Pad2(minute);
    DigitsHaveNoSeparator(hh, ':');
    DigitsHaveNoSeparator(mm, ':');
    assert hh + ":" + mm == Join([hh, mm], ':');
    SplitJoin([hh, mm], ':');
  }

  /** A day with its suffix reads back as the day. */
  lemma OrdinalDayRoundTrip(day: nat)
    ensures ParseOrdinalDay(FormatDateSuffix(day)) == Some(day)
  {
    var token := FormatDateSuffix(day);
    NatToStringRoundTrip(day);
    assert token[..|token| - 2] == NatToString(day);
  }

  /** The display form loses none of the fields it shows. */
  lemma DisplayRoundTrip(dt: DateTime)
    ensures ParseDisplay(FormatTimestamp(dt)) == Some(WallClockOf(dt))
  {
    var t := Split(FormatTimestamp(dt), ' ');
    SplitDisplay(dt);
    assert |t| == 7 && t[3] == "-" && t[6] == "UTC";
    OrdinalDayRoundTrip(dt.day);
    assert ParseOrdinalDay(t[0]) == Some(dt.day);
    MonthNameRoundTrip(dt.month);
    assert MonthNumber(t[1]) == Some(dt.month);
    NatRoundTrips(dt.year, "");
    assert ParseNat(t[2]) == Some(dt.year);
    ClockRoundTrip(dt.hour, dt.minute);
    assert ParseClock(t[4], t[5]) == Some((dt.hour, dt.minute));
  }

  /**
   * Two times display the same exactly when their wall-clock fields agree:
   * seconds are dropped and the UTC offset is ignored, not applied.
   */
  lemma DisplayDeterminesWallClock(a: DateTime, b: DateTime)
    ensures FormatTimestamp(a) == FormatTimestamp(b) <==> WallClockOf(a) == WallClockOf(b)
  {
    if WallClockOf(a) == WallClockOf(b) {
      StrftimeWallClock(FormatDateSuffix(a.day) + TimestampFormat, a, b);
    }
    if FormatTimestamp(a) == FormatTimestamp(b) {
      DisplayRoundTrip(a);
      DisplayRoundTrip(b);
    }
  }

  /** The push scenario: 2024-03-05 10:15 UTC displays as "5th March 2024 - 10:15 AM UTC". */
  lemma TimestampExample()
    ensures FormatTimestamp(Instant(2024, 3, 5, 10, 15, 0, Some(0))) ==
            Join(["5th", "March", "2024", "-", "10:15", "AM", "UTC"], ' ')
    ensures FormatTimestamp(Instant(2024, 3, 5, 10, 15, 0, Some(0))) == "5th March 2024 - 10:15 AM UTC"
  {
    var dt: DateTime := Instant(2024, 3, 5, 10, 15, 0, Some(0));
    assert FormatDateSuffix(5) == "5th" by {
      assert NatToString(5) == "5";
    }
    assert NatToString(2024) == "2024" by {
      assert NatToString(2) == "2" && NatToString(20) == "20" && NatToString(202) == "202";
    }
    assert Pad2(Hour12(10)) + ":" + Pad2(15) == "10:15";
    var t := ["5th", "March", "2024", "-", "10:15", "AM", "UTC"];
    assert DisplayTokens(dt) == t;
    var r6 := "UTC";
    var r5 := "AM" + (" " + r6);
    var r4 := "10:15" + (" " + r5);
    var r3 := "-" + (" " + r4);
    var r2 := "2024" + (" " + r3);
    var r1 := "March" + (" " + r2);
    assert Join(t[6..], ' ') == r6;
    assert Join(t[5..], ' ') == r5;
    assert Join(t[4..], ' ') == r4;
    assert Join(t[3..], ' ') == r3;
    assert Join(t[2..], ' ') == r2;
    assert Join(t[1..], ' ') == r1;
    assert Join(t, ' ') == "5th" + (" " + r1);
    ExampleText();
  }

  lemma ExampleText()
    ensures "5th" + (" " + ("March" + (" " + ("2024" + (" " + ("-" + (" " + ("10:15" + (" " +
            ("AM" + (" " + "UTC"))))))))))) == "5th March 2024 - 10:15 AM UTC"
  {
  }
}
