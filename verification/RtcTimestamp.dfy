/** Setting the clock from a timestamp text: parsing, the instant, and the normalized UTC text
    (rtc_parse_iso8601). */
module RtcTimestamp {
  import opened Wrappers
  import opened Calendar
  import opened CivilDays
  import opened RtcClock

  datatype Parsed = Ok(epoch: int, normalized: string) | InvalidArgs | RangeError

  function DigitOf(n: int): char {
    ('0' as int + n % 10) as char
  }

  /** `YYYY-MM-DDTHH:MM:SS+00:00` */
  function Stamp(m: Moment): string {
    var d := m.date;
    [DigitOf(d.year / 1000), DigitOf(d.year / 100), DigitOf(d.year / 10), DigitOf(d.year), '-',
     DigitOf(d.month / 10), DigitOf(d.month), '-', DigitOf(d.day / 10), DigitOf(d.day), 'T',
     DigitOf(m.hour / 10), DigitOf(m.hour), ':', DigitOf(m.minute / 10), DigitOf(m.minute), ':',
     DigitOf(m.second / 10), DigitOf(m.second), '+', '0', '0', ':', '0', '0']
  }

  predicate DigitsAt(s: string, i: nat, n: nat) {
    i + n <= |s| && forall k :: i <= k < i + n ==> IsDigit(s[k])
  }

  function SkipDigits(s: string, i: nat): (j: nat)
    requires i <= |s|
    ensures i <= j <= |s|
    decreases |s| - i
  {
    if i < |s| && IsDigit(s[i]) then SkipDigits(s, i + 1) else i
  }

  /** The fields before the fraction: separators and digits where they belong. */
  predicate Shaped(s: string) {
    && 20 <= |s| <= 40 && s[4] == '-' && s[7] == '-' && s[10] == 'T' && s[13] == ':' && s[16] == ':'
    && DigitsAt(s, 0, 4) && DigitsAt(s, 5, 2) && DigitsAt(s, 8, 2) && DigitsAt(s, 11, 2) && DigitsAt(s, 14, 2) && DigitsAt(s, 17, 2)
  }

  function Written(s: string): Moment
    requires Shaped(s)
  {
    Moment(Date(TwoDigits(s, 0) * 100 + TwoDigits(s, 2), TwoDigits(s, 5), TwoDigits(s, 8)),
           TwoDigits(s, 11), TwoDigits(s, 14), TwoDigits(s, 17))
  }

  /** Where the zone starts: after an optional fraction, which needs at least one digit. */
  function ZoneAt(s: string): Option<nat>
    requires Shaped(s)
  {
    if s[19] != '.' then Some(19)
    else
      var j := SkipDigits(s, 20);
      if j == 20 then None else Some(j)
  }

  /** The zone's offset in seconds, if the text ends with a zone. */
  function Zone(s: string, i: nat): Option<int> {
    if i >= |s| then None
    else if s[i] == 'Z' then (if i + 1 == |s| then Some(0) else None)
    else if s[i] != '+' && s[i] != '-' then None
    else if i + 6 != |s| || s[i + 3] != ':' || !DigitsAt(s, i + 1, 2) || !DigitsAt(s, i + 4, 2) then None
    else
      var h, m := TwoDigits(s, i + 1), TwoDigits(s, i + 4);
      if h > 14 || m > 59 || (h == 14 && m != 0) then None
      else Some(if s[i] == '+' then h * 3600 + m * 60 else -(h * 3600 + m * 60))
  }

  /** What the parser answers. */
  function Parse(s: string): Parsed {
    if !Shaped(s) then InvalidArgs
    else if !IsMoment(Written(s)) then RangeError
    else
      var at := ZoneAt(s);
      var zone := if at.None? then None else Zone(s, at.value);
      if zone.None? then InvalidArgs
      else
        var epoch := Instant(Written(s)) - zone.value;
        if !InWindow(epoch) then RangeError else Ok(epoch, Stamp(Civil(epoch)))
  }

  // ----- The stamp of a moment -----

  lemma Pair(s: string, i: nat, n: int)
    requires i + 1 < |s| && 0 <= n < 100 && s[i] == DigitOf(n / 10) && s[i + 1] == DigitOf(n)
    ensures IsDigit(s[i]) && IsDigit(s[i + 1]) && TwoDigits(s, i) == n
  {
  }

  lemma YearDigits(y: int)
    requires 0 <= y <= 9999
    ensures DigitOf(y / 100 / 10) == DigitOf(y / 1000)
    ensures DigitOf(y % 100 / 10) == DigitOf(y / 10) && DigitOf(y % 100) == DigitOf(y)
  {
    Thousands(y);
    Tens(y);
  }

  lemma Thousands(y: int)
    requires 0 <= y <= 9999
    ensures y / 100 / 10 == y / 1000
  {
    var q, t := y / 1000, y % 1000 / 100;
    assert y % 1000 == 100 * t + y % 1000 % 100;
    assert y == 100 * (10 * q + t) + y % 1000 % 100;
    assert y / 100 == 10 * q + t;
  }

  lemma Tens(y: int)
    requires 0 <= y <= 9999
    ensures DigitOf(y % 100 / 10) == DigitOf(y / 10) && DigitOf(y % 100) == DigitOf(y)
  {
    var c, t, u := y / 100, y % 100 / 10, y % 100 % 10;
    assert y == 10 * (10 * c + t) + u;
    assert y / 10 == 10 * c + t && y % 10 == u;
    assert (10 * c + t) % 10 == t;
  }

  lemma YearPairs(s: string, y: int)
    requires 0 <= y <= 9999 && |s| >= 4
    requires s[0] == DigitOf(y / 1000) && s[1] == DigitOf(y / 100) && s[2] == DigitOf(y / 10) && s[3] == DigitOf(y)
    ensures IsDigit(s[0]) && IsDigit(s[1]) && IsDigit(s[2]) && IsDigit(s[3]) && TwoDigits(s, 0) * 100 + TwoDigits(s, 2) == y
  {
    YearDigits(y);
    hide IsDigit, TwoDigits;
    Pair(s, 0, y / 100);
    Pair(s, 2, y % 100);
  }

  lemma StampDate(m: Moment)
    requires IsMoment(m) && 0 <= m.date.year <= 9999
    ensures DigitsAt(Stamp(m), 0, 4) && TwoDigits(Stamp(m), 0) * 100 + TwoDigits(Stamp(m), 2) == m.date.year
    ensures DigitsAt(Stamp(m), 5, 2) && TwoDigits(Stamp(m), 5) == m.date.month
    ensures DigitsAt(Stamp(m), 8, 2) && TwoDigits(Stamp(m), 8) == m.date.day
  {
    hide DigitOf, TwoDigits, IsDigit, DaysInMonth;
    DayBound(m.date);
    YearPairs(Stamp(m), m.date.year);
    Pair(Stamp(m), 5, m.date.month);
    Pair(Stamp(m), 8, m.date.day);
  }

  lemma StampTime(m: Moment)
    requires IsMoment(m)
    ensures DigitsAt(Stamp(m), 11, 2) && TwoDigits(Stamp(m), 11) == m.hour
    ensures DigitsAt(Stamp(m), 14, 2) && TwoDigits(Stamp(m), 14) == m.minute
    ensures DigitsAt(Stamp(m), 17, 2) && TwoDigits(Stamp(m), 17) == m.second
  {
    hide DigitOf, TwoDigits, IsDigit, DaysInMonth;
    Pair(Stamp(m), 11, m.hour);
    Pair(Stamp(m), 14, m.minute);
    Pair(Stamp(m), 17, m.second);
  }

  lemma StampMarks(m: Moment)
    ensures var s := Stamp(m); |s| == 25 && s[4] == '-' && s[7] == '-' && s[10] == 'T' && s[13] == ':' && s[16] == ':'
    ensures Zone(Stamp(m), 19) == Some(0)
  {
    hide DigitOf;
    ZeroZone(Stamp(m));
  }

  /** The fields of a stamp are those of the moment it was made from. */
  lemma StampFields(m: Moment)
    requires IsMoment(m) && 0 <= m.date.year <= 9999
    ensures Shaped(Stamp(m)) && Written(Stamp(m)) == m
    ensures Zone(Stamp(m), 19) == Some(0)
  {
    hide Stamp, TwoDigits, DigitsAt, IsMoment;
    StampMarks(m);
    StampDate(m);
    StampTime(m);
  }

  lemma DayBound(d: Date)
    requires IsDate(d)
    ensures d.day <= 31
  {
  }

  lemma ZeroZone(s: string)
    requires |s| == 25 && s[19..] == "+00:00"
    ensures Zone(s, 19) == Some(0)
  {
    forall k: nat | k < 6 ensures s[19 + k] == "+00:00"[k] {
      assert s[19..][k] == s[19 + k];
    }
    assert s[19] == '+' && s[20] == '0' && s[21] == '0' && s[22] == ':' && s[23] == '0' && s[24] == '0';
  }

  /** Normalizing is idempotent: the normalized text parses to the same instant and to itself. */
  lemma NormalizedParses(epoch: nat)
    requires InWindow(epoch)
    ensures Parse(Stamp(Civil(epoch))) == Ok(epoch, Stamp(Civil(epoch)))
  {
    hide Civil, Instant, Stamp, Shaped, Written, Zone;
    CivilInstant(epoch);
    WindowYears(Civil(epoch));
    StampFields(Civil(epoch));
    StampPlus(Civil(epoch));
  }

  lemma StampPlus(m: Moment)
    ensures |Stamp(m)| == 25 && Stamp(m)[19] == '+'
  {
  }

  lemma Idempotent(s: string)
    requires Parse(s).Ok?
    ensures Parse(Parse(s).normalized) == Parse(s) && InWindow(Parse(s).epoch)
  {
    hide Civil, Instant, Stamp, Shaped, Written, Zone;
    NormalizedParses(Parse(s).epoch);
  }

  /** On the manifest's timestamps, except leap seconds, both parsers name the same instant. */
  lemma ParsersAgree(s: string)
    requires ValidStamp(s) && TwoDigits(s, 17) <= 59
    ensures Parse(s) == if InWindow(UtcSeconds(s)) then Ok(UtcSeconds(s), Stamp(Civil(UtcSeconds(s)))) else RangeError
  {
    hide Civil, Stamp, DayNumber;
    assert Shaped(s);
    assert IsMoment(Written(s));
    assert Zone(s, 19).Some?;
  }

  /** The normalized text is a manifest timestamp of the same instant. */
  lemma NormalizedKeepsInstant(epoch: nat)
    requires InWindow(epoch)
    ensures ValidStamp(Stamp(Civil(epoch))) && UtcSeconds(Stamp(Civil(epoch))) == epoch
    ensures Stamp(Civil(epoch))[19..] == "+00:00"
  {
    hide Civil, Instant, Number, DayNumber;
    var m := Civil(epoch);
    CivilInstant(epoch);
    WindowYears(m);
    StampFields(m);
    StampValid(m);
    ParsersAgree(Stamp(m));
    NormalizedParses(epoch);
    StampEnds(m);
  }

  lemma StampEnds(m: Moment)
    ensures Stamp(m)[19..] == "+00:00"
  {
    hide DigitOf;
  }

  lemma StampValid(m: Moment)
    requires IsMoment(m) && 2000 <= m.date.year <= 2099 && Shaped(Stamp(m)) && Written(Stamp(m)) == m
    ensures ValidStamp(Stamp(m)) && TwoDigits(Stamp(m), 17) <= 59
  {
  }

  // ----- The parser -----

  /** rtc_parse_fixed_digits for two digits. */
  method TwoFixed(s: string, i: nat) returns (value: Option<int>)
    requires i + 2 <= |s|
    ensures value == if DigitsAt(s, i, 2) then Some(TwoDigits(s, i)) else None
  {
    var v := 0;
    for k := 0 to 2
      invariant DigitsAt(s, i, k)
      invariant v == if k == 0 then 0 else if k == 1 then Digit(s[i]) else TwoDigits(s, i)
    {
      if !IsDigit(s[i + k]) {
        return None;
      }
      v := v * 10 + Digit(s[i + k]);
    }
    value := Some(v);
  }

  /** The zone part of rtc_parse_iso8601. */
  method ReadZone(s: string, pos: nat) returns (offset: Option<int>)
    ensures offset == Zone(s, pos)
  {
    hide TwoDigits, DigitsAt;
    if pos >= |s| {
      return None;
    }
    if s[pos] == 'Z' {
      if pos + 1 != |s| {
        return None;
      }
      return Some(0);
    }
    if s[pos] != '+' && s[pos] != '-' {
      return None;
    }
    if pos + 6 != |s| || s[pos + 3] != ':' {
      return None;
    }
    var hour := TwoFixed(s, pos + 1);
    var minute := TwoFixed(s, pos + 4);
    if hour.None? || minute.None? || hour.value > 14 || minute.value > 59 || (hour.value == 14 && minute.value != 0) {
      return None;
    }
    var seconds := hour.value * 3600 + minute.value * 60;
    offset := Some(if s[pos] == '+' then seconds else -seconds);
  }

  /** rtc_parse_iso8601. */
  method ParseIso(s: string) returns (r: Parsed)
    ensures r == Parse(s)
  {
    hide Civil, Stamp, Instant;
    if |s| < 20 || |s| > 40 || s[4] != '-' || s[7] != '-' || s[10] != 'T' || s[13] != ':' || s[16] != ':' {
      return InvalidArgs;
    }
    var century := TwoFixed(s, 0);
    var year := TwoFixed(s, 2);
    var month := TwoFixed(s, 5);
    var day := TwoFixed(s, 8);
    var hour := TwoFixed(s, 11);
    var minute := TwoFixed(s, 14);
    var second := TwoFixed(s, 17);
    if century.None? || year.None? || month.None? || day.None? || hour.None? || minute.None? || second.None? {
      return InvalidArgs;
    }
    assert Shaped(s);
    var m := Moment(Date(century.value * 100 + year.value, month.value, day.value), hour.value, minute.value, second.value);
    if !IsMoment(m) {
      return RangeError;
    }
    var pos := 19;
    if s[pos] == '.' {
      pos := 20;
      while pos < |s| && IsDigit(s[pos])
        invariant 20 <= pos <= |s| && SkipDigits(s, 20) == SkipDigits(s, pos)
      {
        pos := pos + 1;
      }
      if pos == 20 {
        return InvalidArgs;
      }
    }
    var zone := ReadZone(s, pos);
    if zone.None? {
      return InvalidArgs;
    }
    var epoch := Instant(m) - zone.value;
    r := if InWindow(epoch) then Ok(epoch, Stamp(Civil(epoch))) else RangeError;
  }
}
