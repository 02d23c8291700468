/** Dates of the proleptic Gregorian calendar, and the timestamp text the recorder writes. */
module Calendar {
  predicate IsLeap(year: int) {
    year % 4 == 0 && (year % 100 != 0 || year % 400 == 0)
  }

  function DaysInMonth(year: int, month: int): int {
    if month == 2 then (if IsLeap(year) then 29 else 28)
    else if month in {4, 6, 9, 11} then 30
    else 31
  }

  /** valid_calendar_date: year 0 is refused. */
  predicate ValidDate(year: int, month: int, day: int) {
    year != 0 && 1 <= month <= 12 && 1 <= day <= DaysInMonth(year, month)
  }

  predicate IsDigit(c: char) {
    '0' <= c <= '9'
  }

  function Digit(c: char): int {
    c as int - '0' as int
  }

  function TwoDigits(s: string, i: nat): int
    requires i + 1 < |s|
  {
    Digit(s[i]) * 10 + Digit(s[i + 1])
  }

  const STAMP_LENGTH: nat := 25

  /** `YYYY-MM-DDTHH:MM:SS+HH:MM`: separators where they belong and digits elsewhere. */
  predicate StampShape(s: string) {
    && |s| == STAMP_LENGTH
    && s[4] == '-' && s[7] == '-' && s[10] == 'T' && s[13] == ':' && s[16] == ':'
    && (s[19] == '+' || s[19] == '-') && s[22] == ':'
    && forall i :: 0 <= i < |s| && i !in {4, 7, 10, 13, 16, 19, 22} ==> IsDigit(s[i])
  }

  function Year(s: string): int
    requires |s| == STAMP_LENGTH
  {
    TwoDigits(s, 0) * 100 + TwoDigits(s, 2)
  }

  /** device_manifest_is_valid_iso8601_offset: a leap second and an offset up to 14:00 are allowed. */
  predicate ValidStamp(s: string) {
    && StampShape(s)
    && ValidDate(Year(s), TwoDigits(s, 5), TwoDigits(s, 8))
    && TwoDigits(s, 11) <= 23 && TwoDigits(s, 14) <= 59 && TwoDigits(s, 17) <= 60
    && TwoDigits(s, 20) <= 14 && TwoDigits(s, 23) <= 59 && (TwoDigits(s, 20) == 14 ==> TwoDigits(s, 23) == 0)
  }

  /** Days since 1970-01-01 by the closed formula over 400-year eras of 146097 days. */
  function DayNumber(year: int, month: int, day: int): int {
    var y := if month <= 2 then year - 1 else year;
    var era := y / 400;
    var yearOfEra := y - era * 400;
    var dayOfYear := (153 * (if month > 2 then month - 3 else month + 9) + 2) / 5 + day - 1;
    var dayOfEra := yearOfEra * 365 + yearOfEra / 4 - yearOfEra / 100 + dayOfYear;
    era * 146097 + dayOfEra - 719468
  }

  /** The UTC instant a timestamp names, in seconds since 1970: manifest_utc_seconds. */
  function UtcSeconds(s: string): int
    requires ValidStamp(s)
  {
    var offset := TwoDigits(s, 20) * 3600 + TwoDigits(s, 23) * 60;
    DayNumber(Year(s), TwoDigits(s, 5), TwoDigits(s, 8)) * 86400
    + TwoDigits(s, 11) * 3600 + TwoDigits(s, 14) * 60 + TwoDigits(s, 17)
    + (if s[19] == '+' then -offset else offset)
  }
}
