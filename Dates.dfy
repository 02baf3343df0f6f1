/**
  Calendar days and the ISO 8601 date text ("YYYY-MM-DD") in which the
  server sends due dates and the client's date input produces them.
  Time of day and time zones are abstracted away: a date-time is reduced
  to the calendar day it falls on.
*/
module Dates {
  import opened Wrappers

  datatype Date = Date(year: int, month: int, day: int)

  predicate IsLeapYear(year: int) {
    (year % 4 == 0 && year % 100 != 0) || year % 400 == 0
  }

  function DaysInMonth(year: int, month: int): (n: int)
    requires 1 <= month <= 12
    ensures 28 <= n <= 31
  {
    if month == 2 then (if IsLeapYear(year) then 29 else 28)
    else if month == 4 || month == 6 || month == 9 || month == 11 then 30
    else 31
  }

  /** A day of the proleptic Gregorian calendar with a four-digit year. */
  predicate ValidDate(d: Date) {
    0 <= d.year <= 9999 && 1 <= d.month <= 12 && 1 <= d.day <= DaysInMonth(d.year, d.month)
  }

  type CalendarDay = d: Date | ValidDate(d) witness Date(1970, 1, 1)

  /** `a` is an earlier calendar day than `b`: the `<` between two local midnights. */
  predicate Before(a: Date, b: Date) {
    a.year < b.year
    || (a.year == b.year && a.month < b.month)
    || (a.year == b.year && a.month == b.month && a.day < b.day)
  }

  // ----- decimal digits -----

  predicate IsDigit(c: char) { '0' <= c <= '9' }

  predicate AllDigits(s: string) {
    forall i :: 0 <= i < |s| ==> IsDigit(s[i])
  }

  function DigitValue(c: char): (n: nat)
    requires IsDigit(c)
    ensures n < 10
  {
    c as int - '0' as int
  }

  function DigitChar(n: nat): (c: char)
    requires n < 10
    ensures IsDigit(c) && DigitValue(c) == n
  {
    ('0' as int + n) as char
  }

  function Pow10(k: nat): (p: nat)
    ensures p >= 1
  {
    if k == 0 then 1 else 10 * Pow10(k - 1)
  }

  /** The value of a string of decimal digits, most significant first. */
  function Number(s: string): (n: nat)
    requires AllDigits(s)
    ensures n < Pow10(|s|)
  {
    if s == [] then 0
    else Number(s[..|s| - 1]) * 10 + DigitValue(s[|s| - 1])
  }

  /** `n` written with exactly `width` digits, padded with leading zeros. */
  function Digits(n: nat, width: nat): (s: string)
    ensures |s| == width && AllDigits(s)
  {
    if width == 0 then ""
    else Digits(n / 10, width - 1) + [DigitChar(n % 10)]
  }

  lemma {:induction false} NumberOfDigits(n: nat, width: nat)
    requires n < Pow10(width)
    ensures Number(Digits(n, width)) == n
  {
    if width > 0 {
      var s := Digits(n, width);
      assert s[..|s| - 1] == Digits(n / 10, width - 1);
      NumberOfDigits(n / 10, width - 1);
    }
  }

  lemma {:induction false} DigitsOfNumber(s: string)
    requires AllDigits(s)
    ensures Digits(Number(s), |s|) == s
  {
    if s != [] {
      var init := s[..|s| - 1];
      var n := Number(s);
      assert n / 10 == Number(init) && n % 10 == DigitValue(s[|s| - 1]);
      DigitsOfNumber(init);
      assert DigitChar(DigitValue(s[|s| - 1])) == s[|s| - 1];
      assert init + [s[|s| - 1]] == s;
    }
  }

  // ----- ISO 8601 date text -----

  /** The shape "DDDD-DD-DD" of a calendar date in ISO 8601 extended format. */
  predicate IsoShape(s: string) {
    |s| == 10 && s[4] == '-' && s[7] == '-'
    && AllDigits(s[..4]) && AllDigits(s[5..7]) && AllDigits(s[8..])
  }

  /**
    Reads "YYYY-MM-DD". Text of another shape, or naming a day the calendar
    does not have, is not a date here. ECMAScript also reads the reduced
    forms "YYYY" and "YYYY-MM" and six-digit signed years; this model does not.
  */
  function ParseIsoDate(s: string): (r: Option<CalendarDay>)
    ensures r.Some? ==> IsoShape(s)
  {
    if IsoShape(s) then
      var d := Date(Number(s[..4]), Number(s[5..7]), Number(s[8..]));
      if ValidDate(d) then Some(d) else None
    else None
  }

  function FormatIsoDate(d: CalendarDay): (s: string)
    ensures |s| == 10
  {
    Digits(d.year, 4) + "-" + Digits(d.month, 2) + "-" + Digits(d.day, 2)
  }

  lemma FormatIsoDateParts(d: CalendarDay)
    ensures var s := FormatIsoDate(d);
      s[..4] == Digits(d.year, 4) && s[4] == '-' && s[5..7] == Digits(d.month, 2)
      && s[7] == '-' && s[8..] == Digits(d.day, 2)
  {
  }

  /** Formatting a day and reading it back gives the same day. */
  lemma ParseFormatIsoDate(d: CalendarDay)
    ensures ParseIsoDate(FormatIsoDate(d)) == Some(d)
  {
    var s := FormatIsoDate(d);
    FormatIsoDateParts(d);
    NumberOfDigits(d.year, 4);
    NumberOfDigits(d.month, 2);
    NumberOfDigits(d.day, 2);
  }

  /** Every text that reads as a date is that date's canonical form. */
  lemma FormatParseIsoDate(s: string)
    requires ParseIsoDate(s).Some?
    ensures FormatIsoDate(ParseIsoDate(s).value) == s
  {
    var d := ParseIsoDate(s).value;
    assert IsoShape(s);
    assert d == Date(Number(s[..4]), Number(s[5..7]), Number(s[8..]));
    var t := FormatIsoDate(d);
    FormatIsoDateParts(d);
    assert t[..4] == s[..4] by { DigitsOfNumber(s[..4]); }
    assert t[5..7] == s[5..7] by { DigitsOfNumber(s[5..7]); }
    assert t[8..] == s[8..] by { DigitsOfNumber(s[8..]); }
    assert s == s[..4] + [s[4]] + s[5..7] + [s[7]] + s[8..];
    assert t == t[..4] + [t[4]] + t[5..7] + [t[7]] + t[8..];
  }

  // ----- ISO 8601 date-time text -----

  /** The two characters of `s` at `i` are digits naming a number below `bound`. */
  predicate TwoDigitsBelow(s: string, i: nat, bound: nat)
    requires i + 2 <= |s|
  {
    AllDigits(s[i..i + 2]) && Number(s[i..i + 2]) < bound
  }

  /** An optional zone designator: nothing, "Z", or an offset "+HH:mm" / "-HH:mm". */
  predicate IsoZone(z: string) {
    || z == ""
    || z == "Z"
    || (|z| == 6 && (z[0] == '+' || z[0] == '-') && z[3] == ':'
        && TwoDigitsBelow(z, 1, 24) && TwoDigitsBelow(z, 4, 60))
  }

  /** An optional fraction of a second ("." and one or more digits), then a zone. */
  predicate IsoFractionAndZone(r: string) {
    || IsoZone(r)
    || (|r| >= 2 && r[0] == '.'
        && exists k :: 2 <= k <= |r| && AllDigits(r[1..k]) && IsoZone(r[k..]))
  }

  /** Optional seconds (":ss"), then a fraction and a zone. */
  predicate IsoSecondsAndZone(r: string) {
    || IsoZone(r)
    || (|r| >= 3 && r[0] == ':' && TwoDigitsBelow(r, 1, 60) && IsoFractionAndZone(r[3..]))
  }

  /**
    What may follow the date in an ISO 8601 date-time: nothing, or
    "THH:mm", "THH:mm:ss" or "THH:mm:ss.s…", each with an optional zone.
  */
  predicate IsoTime(t: string) {
    || t == ""
    || (|t| >= 6 && t[0] == 'T' && t[3] == ':'
        && TwoDigitsBelow(t, 1, 24) && TwoDigitsBelow(t, 4, 60) && IsoSecondsAndZone(t[6..]))
  }

  /** Midnight, the time part the server writes and the client appends. */
  lemma MidnightIsIsoTime()
    ensures IsoTime("T00:00:00")
  {
    var t := "T00:00:00";
    assert t[1..3] == "00" && t[4..6] == "00";
    assert Number("00") == 0 by { assert "00"[..1] == "0"; }
    var r := t[6..];
    assert r == ":00" && r[1..3] == "00" && r[3..] == "";
  }

  /**
    Reads an ISO 8601 date-time as the calendar day written in it; the time
    and zone must be well formed but do not move the day.
  */
  function ParseIsoDateTime(s: string): Option<CalendarDay> {
    if |s| >= 10 && IsoTime(s[10..]) then ParseIsoDate(s[..10]) else None
  }

  /** A date-time text names day `d` exactly when it is `d`'s ISO form followed by a well-formed time part. */
  lemma ParseIsoDateTimeNamesDay(s: string, d: CalendarDay)
    ensures ParseIsoDateTime(s) == Some(d)
        <==> |s| >= 10 && s[..10] == FormatIsoDate(d) && IsoTime(s[10..])
  {
    if ParseIsoDateTime(s) == Some(d) {
      FormatParseIsoDate(s[..10]);
    }
    if |s| >= 10 && s[..10] == FormatIsoDate(d) && IsoTime(s[10..]) {
      ParseFormatIsoDate(d);
    }
  }

  /** The server's serialised date-time reads back as the day it was stored as. */
  lemma ParseIsoDateTimeOfFormat(d: CalendarDay, time: string)
    requires IsoTime(time)
    ensures ParseIsoDateTime(FormatIsoDate(d) + time) == Some(d)
  {
    var s := FormatIsoDate(d) + time;
    assert s[..10] == FormatIsoDate(d) && s[10..] == time;
    ParseIsoDateTimeNamesDay(s, d);
  }
}
