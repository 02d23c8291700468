/** What the timestamp texts mean: every text names an instant by the manifest timestamp that it abbreviates. */
module RtcText {
  import opened Wrappers
  import opened Calendar
  import opened CivilDays
  import opened RtcClock
  import opened RtcTimestamp

  /** Nothing, or a point and at least one digit. */
  predicate Fraction(f: string) {
    f == "" || (|f| >= 2 && f[0] == '.' && forall k :: 1 <= k < |f| ==> IsDigit(f[k]))
  }

  /** `s` is the timestamp `t` with the fraction `f` before its zone, which may be written `Z` if it is +00:00. */
  predicate Says(s: string, f: string, t: string) {
    && |t| == STAMP_LENGTH && Fraction(f)
    && (s == t[..19] + f + t[19..] || (s == t[..19] + f + "Z" && t[19..] == "+00:00"))
  }

  /** A manifest timestamp without a leap second, in the clock's window. */
  predicate Settable(t: string) {
    ValidStamp(t) && TwoDigits(t, 17) <= 59 && InWindow(UtcSeconds(t))
  }

  lemma {:induction false} SkipsTo(s: string, i: nat, j: nat)
    requires i <= j <= |s| && (forall k :: i <= k < j ==> IsDigit(s[k])) && (j < |s| ==> !IsDigit(s[j]))
    ensures SkipDigits(s, i) == j
    decreases j - i
  {
    if i < j {
      SkipsTo(s, i + 1, j);
    }
  }

  lemma {:induction false} Skipped(s: string, i: nat)
    requires i <= |s|
    ensures forall k :: i <= k < SkipDigits(s, i) ==> IsDigit(s[k])
    ensures SkipDigits(s, i) < |s| ==> !IsDigit(s[SkipDigits(s, i)])
    decreases |s| - i
  {
    if i < |s| && IsDigit(s[i]) {
      Skipped(s, i + 1);
    }
  }

  /** The characters of a text that says `t`. */
  lemma SaysAt(s: string, f: string, t: string)
    requires Says(s, f, t)
    ensures 19 + |f| < |s| && s[..19] == t[..19] && s[19..19 + |f|] == f
    ensures s[19 + |f|..] == t[19..] || (s[19 + |f|..] == "Z" && t[19..] == "+00:00")
  {
  }

  lemma SaysZone(s: string, f: string, t: string)
    requires Says(s, f, t) && StampShape(t) && Shaped(s)
    ensures ZoneAt(s) == Some(19 + |f|)
  {
    SaysAt(s, f, t);
    var at := 19 + |f|;
    assert s[at] == s[at..][0] && t[19] == t[19..][0];
    if f != "" {
      assert forall k :: 19 <= k < at ==> s[k] == s[19..at][k - 19];
      SkipsTo(s, 20, at);
    }
  }

  lemma SameZone(s: string, at: nat, t: string)
    requires at < |s| && ValidStamp(t)
    requires s[at..] == t[19..] || (s[at..] == "Z" && t[19..] == "+00:00")
    ensures Zone(s, at) == Zone(t, 19) && Zone(t, 19).Some?
    ensures Zone(t, 19).value == (if t[19] == '+' then 1 else -1) * (TwoDigits(t, 20) * 3600 + TwoDigits(t, 23) * 60)
  {
    assert forall k: nat :: k < 6 ==> t[19 + k] == t[19..][k];
    if s[at..] == "Z" && t[19..] == "+00:00" {
      assert s[at] == s[at..][0];
      ZeroZone(t);
    } else {
      assert |s| == at + 6 && forall k: nat :: k < 6 ==> s[at + k] == s[at..][k];
    }
  }

  lemma SameFields(s: string, t: string)
    requires 20 <= |s| <= 40 && ValidStamp(t) && TwoDigits(t, 17) <= 59 && s[..19] == t[..19]
    ensures Shaped(s) && IsMoment(Written(s)) && Written(s) == Written(t)
  {
    assert forall k :: 0 <= k < 19 ==> s[k] == s[..19][k] == t[k];
  }

  /** Whatever the fraction and however the zone is written, the instant is the timestamp's. */
  lemma SaysInstant(s: string, f: string, t: string)
    requires |s| <= 40 && Says(s, f, t) && ValidStamp(t) && TwoDigits(t, 17) <= 59
    ensures Parse(s) == if InWindow(UtcSeconds(t)) then Ok(UtcSeconds(t), Stamp(Civil(UtcSeconds(t)))) else RangeError
  {
    hide Zone, ZoneAt, Shaped, Written, IsMoment, Civil, Stamp, Instant, UtcSeconds, TwoDigits;
    SaysAt(s, f, t);
    SameFields(s, t);
    SaysZone(s, f, t);
    SameZone(s, 19 + |f|, t);
    SameFields(t, t);
    assert Says(t, "", t);
    SaysZone(t, "", t);
    ParsersAgree(t);
  }

  /** What the parser accepts abbreviates a timestamp: its own 19 characters and its zone. */
  lemma AcceptedSays(s: string) returns (f: string, t: string)
    requires Parse(s).Ok?
    ensures Says(s, f, t) && Settable(t) && Parse(s) == Ok(UtcSeconds(t), Stamp(Civil(UtcSeconds(t))))
  {
    hide Civil, Stamp, Instant, UtcSeconds, TwoDigits;
    var at := ZoneAt(s).value;
    f := s[19..at];
    t := s[..19] + (if s[at] == 'Z' then "+00:00" else s[at..]);
    AcceptedFraction(s);
    assert s == s[..19] + f + s[at..];
    AcceptedZone(s, at, t);
    AcceptedStamp(s, t);
    AcceptedYear(s);
    SaysInstant(s, f, t);
  }

  ghost predicate SaysSettable(s: string) {
    exists f, t :: Says(s, f, t) && Settable(t)
  }

  /** The parser accepts exactly the texts of at most 40 characters that say a settable timestamp. */
  lemma AcceptedExactly(s: string)
    ensures Parse(s).Ok? <==> |s| <= 40 && SaysSettable(s)
  {
    hide Parse, Says, Settable;
    if Parse(s).Ok? {
      var f, t := AcceptedSays(s);
      AcceptedLength(s);
    } else if |s| <= 40 && SaysSettable(s) {
      var f, t :| Says(s, f, t) && Settable(t);
      SettableIsAccepted(s, f, t);
    }
  }

  lemma AcceptedLength(s: string)
    requires Parse(s).Ok?
    ensures |s| <= 40
  {
  }

  lemma SettableIsAccepted(s: string, f: string, t: string)
    requires |s| <= 40 && Says(s, f, t) && Settable(t)
    ensures Parse(s).Ok?
  {
    hide Parse, Says;
    SaysInstant(s, f, t);
  }

  /** A date of the year 0 is long before the window, whatever the zone. */
  lemma AcceptedYear(s: string)
    requires Parse(s).Ok?
    ensures Written(s).date.year != 0
  {
    hide Civil, Stamp, Shaped, TwoDigits, DigitsAt;
    var at := ZoneAt(s).value;
    ZoneBound(s, at);
    if Written(s).date.year == 0 {
      YearZero(Written(s).date);
    }
  }

  lemma YearZero(d: Date)
    requires IsDate(d) && d.year == 0
    ensures Number(d) < -10
  {
  }

  lemma ZoneBound(s: string, at: nat)
    requires Zone(s, at).Some?
    ensures -86400 < Zone(s, at).value < 86400
  {
  }

  lemma AcceptedFraction(s: string)
    requires Shaped(s) && ZoneAt(s).Some?
    ensures 19 <= ZoneAt(s).value <= |s| && Fraction(s[19..ZoneAt(s).value])
  {
    if s[19] == '.' {
      Skipped(s, 20);
    }
  }

  lemma AcceptedZone(s: string, at: nat, t: string)
    requires 19 <= at < |s| && Zone(s, at).Some? && t == s[..19] + (if s[at] == 'Z' then "+00:00" else s[at..])
    ensures |t| == 25 && (s[at..] == t[19..] || (s[at..] == "Z" && t[19..] == "+00:00")) && (t[19] == '+' || t[19] == '-') && t[22] == ':'
    ensures DigitsAt(t, 20, 2) && DigitsAt(t, 23, 2)
    ensures TwoDigits(t, 20) <= 14 && TwoDigits(t, 23) <= 59 && (TwoDigits(t, 20) == 14 ==> TwoDigits(t, 23) == 0)
  {
    if s[at] == 'Z' {
      assert t[19..] == "+00:00";
    } else {
      assert |s[at..]| == 6;
      forall i | 19 <= i < 25 ensures t[i] == s[at + i - 19] {
        assert t[i] == t[19..][i - 19] == s[at..][i - 19];
      }
    }
  }

  lemma AcceptedStamp(s: string, t: string)
    requires Shaped(s) && IsMoment(Written(s)) && |t| == 25 && t[..19] == s[..19]
    requires (t[19] == '+' || t[19] == '-') && t[22] == ':' && DigitsAt(t, 20, 2) && DigitsAt(t, 23, 2)
    requires TwoDigits(t, 20) <= 14 && TwoDigits(t, 23) <= 59 && (TwoDigits(t, 20) == 14 ==> TwoDigits(t, 23) == 0)
    ensures Year(t) == Written(s).date.year && (Year(t) != 0 ==> ValidStamp(t) && TwoDigits(t, 17) <= 59)
  {
    forall k | 0 <= k < 19 ensures t[k] == s[k] {
      assert t[..19][k] == s[..19][k];
    }
  }

  // ----- Examples -----

  /** What a text reads as, when the instant of its timestamp is that of a moment. */
  lemma Reads(s: string, f: string, t: string, m: Moment)
    requires |s| <= 40 && Says(s, f, t) && Settable(t) && IsMoment(m) && Instant(m) == UtcSeconds(t)
    ensures Parse(s) == Ok(UtcSeconds(t), Stamp(m))
  {
    hide Parse, Civil, Stamp, Says, UtcSeconds, Instant;
    SaysInstant(s, f, t);
    InstantCivil(m);
  }

  /** A timestamp from its characters. */
  lemma Stands(t: string, y: nat, month: nat, day: nat, h: nat, m: nat, sec: nat, zh: nat, zm: nat)
    requires StampShape(t) && Year(t) == y && TwoDigits(t, 5) == month && TwoDigits(t, 8) == day
    requires TwoDigits(t, 11) == h && TwoDigits(t, 14) == m && TwoDigits(t, 17) == sec && TwoDigits(t, 20) == zh && TwoDigits(t, 23) == zm
    requires ValidDate(y, month, day) && h < 24 && m < 60 && sec < 60 && zh < 14 && zm < 60
    ensures ValidStamp(t) && TwoDigits(t, 17) <= 59
    ensures UtcSeconds(t) == DayNumber(y, month, day) * 86400 + h * 3600 + m * 60 + sec + (if t[19] == '+' then -1 else 1) * (zh * 3600 + zm * 60)
  {
    hide DayNumber, StampShape, Digit, DaysInMonth;
  }

  lemma ExampleDates()
    ensures ValidDate(2026, 10, 3) && ValidDate(2026, 1, 1) && ValidDate(2025, 12, 31)
    ensures DayNumber(2026, 10, 3) == 20729 && DayNumber(2026, 1, 1) == 20454 && DayNumber(2025, 12, 31) == 20453
    ensures IsMoment(Moment(Date(2026, 10, 3), 2, 0, 0)) && Instant(Moment(Date(2026, 10, 3), 2, 0, 0)) == 1790992800
    ensures IsMoment(Moment(Date(2026, 1, 1), 0, 0, 0)) && Instant(Moment(Date(2026, 1, 1), 0, 0, 0)) == 1767225600
  {
  }

  lemma ExampleZulu()
    ensures Parse("2026-10-03T02:00:00Z") == Ok(1790992800, "2026-10-03T02:00:00+00:00")
  {
    hide Parse, Says, Stamp, Year, TwoDigits, StampShape, UtcSeconds, IsMoment, ValidDate, DayNumber, Instant;
    ExampleDates();
    var t := "2026-10-03T02:00:00+00:00";
    ZuluSays();
    ZuluFields(t);
    Stands(t, 2026, 10, 3, 2, 0, 0, 0, 0);
    ZuluStamp();
    Reads("2026-10-03T02:00:00Z", "", t, Moment(Date(2026, 10, 3), 2, 0, 0));
  }

  lemma ZuluSays()
    ensures Says("2026-10-03T02:00:00Z", "", "2026-10-03T02:00:00+00:00")
  {
    assert "2026-10-03T02:00:00Z"[..19] == "2026-10-03T02:00:00+00:00"[..19];
  }

  lemma ZuluFields(t: string)
    requires t == "2026-10-03T02:00:00+00:00"
    ensures StampShape(t) && Year(t) == 2026 && TwoDigits(t, 5) == 10 && TwoDigits(t, 8) == 3
    ensures TwoDigits(t, 11) == 2 && TwoDigits(t, 14) == 0 && TwoDigits(t, 17) == 0 && TwoDigits(t, 20) == 0 && TwoDigits(t, 23) == 0
  {
  }

  lemma ZuluStamp()
    ensures Stamp(Moment(Date(2026, 10, 3), 2, 0, 0)) == "2026-10-03T02:00:00+00:00"
  {
  }

  lemma ExampleEast()
    ensures Parse("2026-01-01T01:30:00.25+01:30") == Ok(1767225600, "2026-01-01T00:00:00+00:00")
  {
    hide Parse, Says, Stamp, Year, TwoDigits, StampShape, UtcSeconds, IsMoment, ValidDate, DayNumber, Instant;
    ExampleDates();
    var t := "2026-01-01T01:30:00+01:30";
    EastSays();
    EastFields(t);
    Stands(t, 2026, 1, 1, 1, 30, 0, 1, 30);
    NewYearStamp();
    Reads("2026-01-01T01:30:00.25+01:30", ".25", t, Moment(Date(2026, 1, 1), 0, 0, 0));
  }

  lemma EastSays()
    ensures Says("2026-01-01T01:30:00.25+01:30", ".25", "2026-01-01T01:30:00+01:30")
  {
    assert "2026-01-01T01:30:00.25+01:30" == "2026-01-01T01:30:00+01:30"[..19] + ".25" + "2026-01-01T01:30:00+01:30"[19..];
  }

  lemma EastFields(t: string)
    requires t == "2026-01-01T01:30:00+01:30"
    ensures StampShape(t) && Year(t) == 2026 && TwoDigits(t, 5) == 1 && TwoDigits(t, 8) == 1
    ensures TwoDigits(t, 11) == 1 && TwoDigits(t, 14) == 30 && TwoDigits(t, 17) == 0 && TwoDigits(t, 20) == 1 && TwoDigits(t, 23) == 30
  {
  }

  lemma ExampleWest()
    ensures Parse("2025-12-31T18:30:00-05:30") == Ok(1767225600, "2026-01-01T00:00:00+00:00")
  {
    hide Parse, Says, Stamp, Year, TwoDigits, StampShape, UtcSeconds, IsMoment, ValidDate, DayNumber, Instant;
    ExampleDates();
    var t := "2025-12-31T18:30:00-05:30";
    WestSays();
    WestFields(t);
    Stands(t, 2025, 12, 31, 18, 30, 0, 5, 30);
    NewYearStamp();
    Reads("2025-12-31T18:30:00-05:30", "", t, Moment(Date(2026, 1, 1), 0, 0, 0));
  }

  lemma WestSays()
    ensures Says("2025-12-31T18:30:00-05:30", "", "2025-12-31T18:30:00-05:30")
  {
    assert "2025-12-31T18:30:00-05:30" == "2025-12-31T18:30:00-05:30"[..19] + "" + "2025-12-31T18:30:00-05:30"[19..];
  }

  lemma WestFields(t: string)
    requires t == "2025-12-31T18:30:00-05:30"
    ensures StampShape(t) && Year(t) == 2025 && TwoDigits(t, 5) == 12 && TwoDigits(t, 8) == 31
    ensures TwoDigits(t, 11) == 18 && TwoDigits(t, 14) == 30 && TwoDigits(t, 17) == 0 && TwoDigits(t, 20) == 5 && TwoDigits(t, 23) == 30
  {
  }

  lemma NewYearStamp()
    ensures Stamp(Moment(Date(2026, 1, 1), 0, 0, 0)) == "2026-01-01T00:00:00+00:00"
  {
  }
}
