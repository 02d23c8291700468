/** The clock chip's registers as a codec for the years 2000 to 2099, and the timestamp parser that
    normalizes to UTC. */
module RtcClock {
  import opened Wrappers
  import opened Calendar
  import opened CivilDays

  const FIRST: int := 946684800
  const LAST: int := 4102444799

  predicate InWindow(epoch: int) {
    FIRST <= epoch <= LAST
  }

  /** The civil time of an instant: what the C library's gmtime yields. */
  datatype Moment = Moment(date: Date, hour: nat, minute: nat, second: nat)

  function Civil(epoch: nat): Moment {
    var t := epoch % 86400;
    Moment(DateOf(epoch / 86400), t / 3600, t / 60 % 60, t % 60)
  }

  predicate IsMoment(m: Moment) {
    IsDate(m.date) && m.hour < 24 && m.minute < 60 && m.second < 60
  }

  function Instant(m: Moment): int {
    Number(m.date) * 86400 + m.hour * 3600 + m.minute * 60 + m.second
  }

  /** The civil time names the instant it was computed from. */
  lemma CivilInstant(epoch: nat)
    ensures IsMoment(Civil(epoch)) && Instant(Civil(epoch)) == epoch
  {
    hide Number, DateOf;
    DateOfNumber(epoch / 86400);
    var t := epoch % 86400;
    assert t == t / 3600 * 3600 + t / 60 % 60 * 60 + t % 60;
  }

  /** A civil time from 1970 on is the civil time of its instant. */
  lemma InstantCivil(m: Moment)
    requires IsMoment(m) && Instant(m) >= 0
    ensures Civil(Instant(m)) == m
  {
    hide Number, DateOf;
    var t := m.hour * 3600 + m.minute * 60 + m.second;
    assert Instant(m) == Number(m.date) * 86400 + t && t < 86400;
    DayAndTime(Number(m.date), t);
    HoursMinutesSeconds(m.hour, m.minute, m.second);
    NumberDateOf(m.date);
  }

  lemma DayAndTime(day: int, t: nat)
    requires t < 86400
    ensures (day * 86400 + t) / 86400 == day && (day * 86400 + t) % 86400 == t
  {
  }

  lemma HoursMinutesSeconds(h: nat, m: nat, s: nat)
    requires m < 60 && s < 60
    ensures var t := h * 3600 + m * 60 + s; t / 3600 == h && t / 60 % 60 == m && t % 60 == s
  {
    var t := h * 3600 + m * 60 + s;
    assert t / 60 == h * 60 + m;
  }

  /** The window is exactly the years 2000 to 2099. */
  lemma WindowYears(m: Moment)
    requires IsMoment(m)
    ensures InWindow(Instant(m)) <==> 2000 <= m.date.year <= 2099
  {
    var first, last, next := Date(2000, 1, 1), Date(2099, 12, 31), Date(2100, 1, 1);
    assert Number(first) == 10957 && Number(next) == 47482;
    hide Number, IsDate;
    assert IsDate(first) && IsDate(next) by { WindowEnds(); }
    if Before(m.date, first) {
      Monotone(m.date, first);
    } else if m.date != first {
      Monotone(first, m.date);
    }
    if Before(m.date, next) {
      Monotone(m.date, next);
    } else if m.date != next {
      Monotone(next, m.date);
    }
    YearSides(m.date);
  }

  lemma WindowEnds()
    ensures IsDate(Date(2000, 1, 1)) && IsDate(Date(2100, 1, 1))
  {
  }

  lemma YearSides(d: Date)
    requires IsDate(d)
    ensures d.year < 2000 <==> Before(d, Date(2000, 1, 1))
    ensures d.year < 2100 <==> Before(d, Date(2100, 1, 1))
  {
  }

  // ----- The registers -----

  function ToBcd(v: nat): nat {
    v / 10 * 16 + v % 10
  }

  predicate BcdValid(b: nat) {
    b % 16 <= 9 && b / 16 % 16 <= 9
  }

  function FromBcd(b: nat): nat {
    b / 16 % 16 * 10 + b % 16
  }

  lemma BcdRoundTrip(v: nat)
    requires v < 100
    ensures ToBcd(v) < 0x9a && BcdValid(ToBcd(v)) && FromBcd(ToBcd(v)) == v
  {
    var b := v / 10 * 16 + v % 10;
    assert b % 16 == v % 10 && b / 16 == v / 10;
  }

  lemma BcdUnique(b: nat)
    requires b < 0x100 && BcdValid(b)
    ensures FromBcd(b) < 100 && ToBcd(FromBcd(b)) == b
  {
    var high, low := b / 16, b % 16;
    assert high % 16 == high;
    TwoPlaces(high, low);
  }

  lemma TwoPlaces(high: nat, low: nat)
    requires low < 10
    ensures (high * 10 + low) / 10 == high && (high * 10 + low) % 10 == low
  {
  }

  function Registers(epoch: nat): (r: seq<nat>)
    ensures |r| == 7
  {
    var m := Civil(epoch);
    [ToBcd(m.second), ToBcd(m.minute), ToBcd(m.hour), ToBcd(Day(m)), (epoch / 86400 + 4) % 7, ToBcd(Month(m)), ToBcd(m.date.year % 100)]
  }

  function Day(m: Moment): nat {
    if m.date.day < 0 then 0 else m.date.day
  }

  function Month(m: Moment): nat {
    if m.date.month < 0 then 0 else m.date.month
  }

  /** What the registers say once the flag bits are masked off. */
  function Reading(r: seq<nat>): Moment
    requires |r| == 7
  {
    Moment(Date(2000 + FromBcd(r[6]), FromBcd(r[5] % 0x20), FromBcd(r[3] % 0x40)), FromBcd(r[2] % 0x40), FromBcd(r[1] % 0x80), FromBcd(r[0] % 0x80))
  }

  /** rtc_hw_read_epoch: refuse a stopped oscillator, another century, and anything that is no date. */
  function ReadRegisters(r: seq<nat>): Option<int>
    requires |r| == 7 && forall i :: 0 <= i < 7 ==> r[i] < 0x100
  {
    if r[0] >= 0x80 || r[5] >= 0x80 then None
    else if !BcdValid(r[0] % 0x80) || !BcdValid(r[1] % 0x80) || !BcdValid(r[2] % 0x40) || !BcdValid(r[3] % 0x40)
      || !BcdValid(r[5] % 0x20) || !BcdValid(r[6]) then None
    else
      var m := Reading(r);
      if !IsMoment(m) then None else Some(Instant(m))
  }

  /** Each field's code stays below the mask of its register. */
  lemma FieldsFit(m: Moment)
    requires IsMoment(m)
    ensures ToBcd(m.second) < 0x80 && ToBcd(m.minute) < 0x80 && ToBcd(m.hour) < 0x40 && ToBcd(m.date.year % 100) < 0x100
    ensures 1 <= m.date.month <= 12 && 1 <= m.date.day <= 31
    ensures Day(m) == m.date.day && ToBcd(Day(m)) < 0x40 && Month(m) == m.date.month && ToBcd(Month(m)) < 0x20
  {
  }

  /** Reading back what was written yields the same instant, for every instant of the window. */
  lemma RegistersRoundTrip(epoch: nat)
    requires InWindow(epoch)
    ensures (forall i :: 0 <= i < 7 ==> Registers(epoch)[i] < 0x100) && ReadRegisters(Registers(epoch)) == Some(epoch)
  {
    hide Civil, Instant, ToBcd, FromBcd, BcdValid, IsDate, Day, Month;
    CivilInstant(epoch);
    var m := Civil(epoch);
    WindowYears(m);
    FieldsFit(m);
    BcdField(m.second, 0x80);
    BcdField(m.minute, 0x80);
    BcdField(m.hour, 0x40);
    BcdField(m.date.day, 0x40);
    BcdField(m.date.month, 0x20);
    BcdField(m.date.year % 100, 0x100);
    assert m.date.year == 2000 + m.date.year % 100;
  }

  /** A field below its mask reads back as it was. */
  lemma BcdField(v: nat, mask: nat)
    requires v < 100 && ToBcd(v) < mask <= 0x100
    ensures ToBcd(v) % mask == ToBcd(v) < 0x9a && BcdValid(ToBcd(v)) && FromBcd(ToBcd(v)) == v
  {
    hide ToBcd, FromBcd, BcdValid;
    BcdRoundTrip(v);
    SmallMod(ToBcd(v), mask);
  }

  lemma SmallMod(n: nat, m: nat)
    requires n < m
    ensures n % m == n
  {
  }

  /** Whatever reads as an instant reads as one of the window, and is what writing that instant
      stores, up to the flag bits and the weekday. */
  lemma ReadingIsWritten(r: seq<nat>)
    requires |r| == 7 && (forall i :: 0 <= i < 7 ==> r[i] < 0x100) && ReadRegisters(r).Some?
    ensures InWindow(ReadRegisters(r).value)
    ensures Registers(ReadRegisters(r).value)[..4] == [r[0], r[1] % 0x80, r[2] % 0x40, r[3] % 0x40]
    ensures Registers(ReadRegisters(r).value)[5..] == [r[5] % 0x20, r[6]]
  {
    hide Civil, Instant, ToBcd, FromBcd, BcdValid;
    var m := Reading(r);
    BcdUnique(r[6]);
    WindowYears(m);
    InstantCivil(m);
    BcdUnique(r[0] % 0x80);
    BcdUnique(r[1] % 0x80);
    BcdUnique(r[2] % 0x40);
    BcdUnique(r[3] % 0x40);
    BcdUnique(r[5] % 0x20);
  }

  /** The fields of registers, without the flag bits and the weekday. */
  function Masked(r: seq<nat>): seq<nat>
    requires |r| == 7
  {
    [r[0] % 0x80, r[1] % 0x80, r[2] % 0x40, r[3] % 0x40, r[5] % 0x20, r[6]]
  }

  lemma WrittenMasked(epoch: nat)
    requires InWindow(epoch)
    ensures var w := Registers(epoch); Masked(w) == [w[0], w[1], w[2], w[3], w[5], w[6]] && w[0] < 0x80 && w[5] < 0x80
  {
    hide Civil, Instant, ToBcd, IsDate, Day, Month;
    CivilInstant(epoch);
    WindowYears(Civil(epoch));
    FieldsFit(Civil(epoch));
  }

  lemma SameMasked(r: seq<nat>, w: seq<nat>)
    requires |r| == |w| == 7 && (forall i :: 0 <= i < 7 ==> r[i] < 0x100 && w[i] < 0x100) && Masked(r) == Masked(w)
    requires r[0] < 0x80 && r[5] < 0x80 && w[0] < 0x80 && w[5] < 0x80
    ensures ReadRegisters(r) == ReadRegisters(w)
  {
    hide BcdValid, FromBcd, Instant, IsMoment;
    assert Masked(r)[0] == Masked(w)[0] && Masked(r)[1] == Masked(w)[1] && Masked(r)[2] == Masked(w)[2];
    assert Masked(r)[3] == Masked(w)[3] && Masked(r)[4] == Masked(w)[4] && Masked(r)[5] == Masked(w)[5];
  }

  /** Registers read as an instant exactly if the oscillator ran and the century flag is clear, and their
      fields are the ones that writing that instant stores. */
  lemma ReadsExactly(r: seq<nat>, epoch: nat)
    requires |r| == 7 && (forall i :: 0 <= i < 7 ==> r[i] < 0x100) && InWindow(epoch)
    ensures ReadRegisters(r) == Some(epoch) <==> r[0] < 0x80 && r[5] < 0x80 && Masked(r) == Masked(Registers(epoch))
  {
    hide Registers, Reading, BcdValid, Instant, IsMoment;
    WrittenMasked(epoch);
    RegistersRoundTrip(epoch);
    if ReadRegisters(r) == Some(epoch) {
      ReadingIsWritten(r);
      assert Registers(epoch)[..4][0] == r[0];
      assert Registers(epoch)[..4] == [Registers(epoch)[0], Registers(epoch)[1], Registers(epoch)[2], Registers(epoch)[3]];
      assert Registers(epoch)[5..] == [Registers(epoch)[5], Registers(epoch)[6]];
    }
    if r[0] < 0x80 && r[5] < 0x80 && Masked(r) == Masked(Registers(epoch)) {
      SameMasked(r, Registers(epoch));
    }
  }

  /** What is stored for 2026-10-03 02:00:00 UTC, a Saturday. */
  lemma ExampleRegisters()
    ensures Registers(1790992800) == [0x00, 0x00, 0x02, 0x03, 6, 0x10, 0x26]
  {
    hide Civil, Instant, ToBcd;
    var m := Moment(Date(2026, 10, 3), 2, 0, 0);
    ExampleInstant(m);
    InstantCivil(m);
    ExampleBcd();
  }

  lemma ExampleBcd()
    ensures ToBcd(0) == 0 && ToBcd(2) == 2 && ToBcd(3) == 3 && ToBcd(10) == 0x10 && ToBcd(26) == 0x26
  {
  }

  lemma ExampleInstant(m: Moment)
    requires m == Moment(Date(2026, 10, 3), 2, 0, 0)
    ensures IsMoment(m) && Instant(m) == 1790992800
  {
  }

  /** The chip on its bus: any transfer may fail, and a failed write may leave any registers. */
  class Chip {
    var registers: seq<nat>
    var running: bool

    ghost predicate Valid()
      reads this
    {
      |registers| == 7 && forall i :: 0 <= i < 7 ==> registers[i] < 0x100
    }

    /** rtc_hw_write_epoch. */
    method WriteEpoch(epoch: nat, stops: bool, sent: bool, starts: bool) returns (ok: bool)
      requires Valid()
      modifies this
      ensures Valid()
      ensures ok <==> InWindow(epoch) && stops && sent && starts
      ensures ok ==> InWindow(epoch) && registers == Registers(epoch) && running && ReadRegisters(registers) == Some(epoch)
      ensures !InWindow(epoch) || !stops ==> registers == old(registers) && running == old(running)
      ensures InWindow(epoch) && stops ==> running == starts && (sent ==> registers == Registers(epoch))
    {
      hide Registers, ReadRegisters, Civil, Instant;
      var m := Civil(epoch);
      CivilInstant(epoch);
      WindowYears(m);
      if m.date.year < 2000 || m.date.year > 2099 {
        return false;
      }
      RegistersRoundTrip(epoch);
      if !stops {
        return false;
      }
      running := false;
      if !sent {
        var torn: seq<nat> := *;
        if |torn| == 7 && forall i :: 0 <= i < 7 ==> torn[i] < 0x100 {
          registers := torn;
        }
        running := starts;
        return false;
      }
      registers := Registers(epoch);
      running := starts;
      ok := starts;
    }

    /** rtc_hw_read_epoch. */
    method ReadEpoch(received: bool) returns (epoch: Option<int>)
      requires Valid()
      ensures epoch == if received then ReadRegisters(registers) else None
    {
      epoch := if received then ReadRegisters(registers) else None;
    }
  }
}
