/** Milliseconds to dates: the closed form against the calendar itself, the
    proleptic Gregorian calendar counted day by day. */
module Calendar {

  datatype Date = Date(year: int, month: int, day: int)

  // The calendar, by its rules.

  predicate IsLeap(year: int) {
    year % 4 == 0 && (year % 100 != 0 || year % 400 == 0)
  }

  function DaysIn(year: int, month: int): int {
    if month == 2 then if IsLeap(year) then 29 else 28
    else if month in {4, 6, 9, 11} then 30
    else 31
  }

  predicate IsDate(date: Date) {
    1 <= date.month <= 12 && 1 <= date.day <= DaysIn(date.year, date.month)
  }

  function DayAfter(date: Date): Date {
    if date.day < DaysIn(date.year, date.month) then date.(day := date.day + 1)
    else if date.month < 12 then Date(date.year, date.month + 1, 1)
    else Date(date.year + 1, 1, 1)
  }

  function DayBefore(date: Date): Date {
    if date.day > 1 then date.(day := date.day - 1)
    else if date.month > 1 then Date(date.year, date.month - 1, DaysIn(date.year, date.month - 1))
    else Date(date.year - 1, 12, 31)
  }

  const EPOCH := Date(1970, 1, 1)

  /** Counting days, forwards or backwards, from 1 January 1970. */
  function Counted(days: int): Date
    decreases if days < 0 then -days else days
  {
    if days == 0 then EPOCH
    else if days > 0 then DayAfter(Counted(days - 1))
    else DayBefore(Counted(days + 1))
  }

  predicate Earlier(a: Date, b: Date) {
    a.year < b.year || (a.year == b.year && (a.month < b.month || (a.month == b.month && a.day < b.day)))
  }

  // The closed form.

  function YearOfEra(doe: int): int {
    (doe - doe / 1_460 + doe / 36_524 - doe / 146_096) / 365
  }

  /** The first day of a year of the era; its years start in March. */
  function YearStart(yoe: int): int {
    365 * yoe + yoe / 4 - yoe / 100
  }

  function MonthOf(doy: int): int {
    (5 * doy + 2) / 153
  }

  function InYear(era: int, yoe: int, doy: int): Date {
    var mp := MonthOf(doy);
    var day := doy - (153 * mp + 2) / 5 + 1;
    var month := if mp < 10 then mp + 3 else mp - 9;
    Date(yoe + era * 400 + (if month <= 2 then 1 else 0), month, day)
  }

  function DateOf(ms: int): Date {
    var days := ms / 86_400_000;
    var z := days + 719_468;
    var era := z / 146_097;
    var doe := z - era * 146_097;
    var yoe := YearOfEra(doe);
    var doy := doe - YearStart(yoe);
    InYear(era, yoe, doy)
  }

  // Why they agree.

  function YearLength(yoe: int): int {
    if IsLeap(yoe + 1) then 366 else 365
  }

  /** A year of the era, counted in centuries, leap cycles and years. */
  lemma YearCounted(c: int, q: int, r: int)
    requires 0 <= c < 4 && 0 <= q < 25 && 0 <= r < 4
    ensures var yoe := 100 * c + 4 * q + r;
      && YearStart(yoe) == 36_524 * c + 1_461 * q + 365 * r
      && (IsLeap(yoe + 1) <==> r == 3 && (q == 24 ==> c == 3))
  {
    var yoe := 100 * c + 4 * q + r;
    assert yoe / 4 == 25 * c + q && yoe / 100 == c;
  }

  lemma YearOfDay(c: int, q: int, r: int, doy: int)
    requires 0 <= c < 4 && 0 <= q < 25 && 0 <= r < 4
    requires 0 <= doy < YearLength(100 * c + 4 * q + r)
    ensures YearOfEra(YearStart(100 * c + 4 * q + r) + doy) == 100 * c + 4 * q + r
  {
    YearCounted(c, q, r);
    var doe := 36_524 * c + 1_461 * q + 365 * r + doy;
    var extra := if 24 * c + q + 365 * r + doy >= 1_460 then 1 else 0;
    assert doe / 1_460 == 25 * c + q + extra;
    assert doe / 36_524 - doe / 146_096 == c;
    assert 0 <= doy - extra < 365;
  }

  /** The closed form finds the year a day of the era falls in. */
  lemma YearFound(doe: int)
    requires 0 <= doe < 146_097
    ensures var yoe := YearOfEra(doe);
      0 <= yoe < 400 && YearStart(yoe) <= doe < YearStart(yoe) + YearLength(yoe)
  {
    var c := if doe / 36_524 < 4 then doe / 36_524 else 3;
    var inCentury := doe - 36_524 * c;
    var q := inCentury / 1_461;
    var inCycle := inCentury - 1_461 * q;
    var r := if inCycle / 365 < 4 then inCycle / 365 else 3;
    YearCounted(c, q, r);
    hide YearStart, YearOfEra, IsLeap;
    YearOfDay(c, q, r, inCycle - 365 * r);
  }

  lemma YearFollows(yoe: int)
    requires 0 <= yoe < 400
    ensures YearStart(yoe) + YearLength(yoe) == if yoe == 399 then 146_097 else YearStart(yoe + 1)
  {
  }

  /** A day of an era that is `doy` days into a year is found there. */
  lemma DayFound(yoe: int, doy: int)
    requires 0 <= yoe < 400 && 0 <= doy < YearLength(yoe)
    ensures YearOfEra(YearStart(yoe) + doy) == yoe
  {
    var c := yoe / 100;
    var q := (yoe - 100 * c) / 4;
    YearOfDay(c, q, yoe - 100 * c - 4 * q, doy);
  }

  /** The day of the year a month starts on, counting from March. */
  function MonthStart(mp: int): int {
    (153 * mp + 2) / 5
  }

  lemma MonthFound(doy: int, mp: int)
    requires 0 <= doy < 366 && 0 <= mp < 12 && MonthStart(mp) <= doy < MonthStart(mp + 1)
    ensures MonthOf(doy) == mp
  {
  }

  lemma MonthExists(doy: int)
    requires 0 <= doy < 366
    ensures var mp := MonthOf(doy); 0 <= mp < 12 && MonthStart(mp) <= doy < MonthStart(mp + 1)
  {
  }

  function CivilMonth(mp: int): int {
    if mp < 10 then mp + 3 else mp - 9
  }

  function CivilYear(era: int, yoe: int, mp: int): int {
    yoe + era * 400 + if mp < 10 then 0 else 1
  }

  lemma EraLeap(era: int, year: int)
    ensures IsLeap(year + era * 400) == IsLeap(year)
  {
    Fourths(year, 100 * era);
    Hundredths(year, 4 * era);
    FourHundredths(year, era);
  }

  lemma Fourths(year: int, k: int)
    ensures (year + 4 * k) % 4 == year % 4
  {
  }

  lemma Hundredths(year: int, k: int)
    ensures (year + 100 * k) % 100 == year % 100
  {
  }

  lemma FourHundredths(year: int, k: int)
    ensures (year + 400 * k) % 400 == year % 400
  {
  }

  lemma MonthDays(era: int, yoe: int, mp: int)
    requires 0 <= mp < 12
    ensures DaysIn(CivilYear(era, yoe, mp), CivilMonth(mp))
         == (if mp < 11 then MonthStart(mp + 1) else YearLength(yoe)) - MonthStart(mp)
  {
    if mp == 11 {
      EraLeap(era, yoe + 1);
    }
  }

  lemma InMonth(era: int, yoe: int, doy: int, mp: int)
    requires 0 <= doy < 366 && 0 <= mp < 12 && MonthStart(mp) <= doy < MonthStart(mp + 1)
    ensures InYear(era, yoe, doy) == Date(CivilYear(era, yoe, mp), CivilMonth(mp), doy - MonthStart(mp) + 1)
  {
    MonthFound(doy, mp);
  }

  /** Within a year the closed form walks its months, and from its last day to the next year. */
  lemma NextInYear(era: int, yoe: int, doy: int)
    requires 0 <= yoe < 400 && 0 <= doy < YearLength(yoe)
    ensures IsDate(InYear(era, yoe, doy))
    ensures DayAfter(InYear(era, yoe, doy)) ==
      if doy + 1 < YearLength(yoe) then InYear(era, yoe, doy + 1)
      else if yoe < 399 then InYear(era, yoe + 1, 0)
      else InYear(era + 1, 0, 0)
  {
    hide IsLeap, InYear, MonthOf, DaysIn;
    MonthExists(doy);
    var mp := MonthOf(doy);
    MonthDays(era, yoe, mp);
    InMonth(era, yoe, doy, mp);
    if doy + 1 == YearLength(yoe) {
      InMonth(era, yoe + 1, 0, 0);
      InMonth(era + 1, 0, 0, 0);
    } else if doy + 1 < MonthStart(mp + 1) {
      InMonth(era, yoe, doy + 1, mp);
    } else {
      InMonth(era, yoe, doy + 1, mp + 1);
    }
  }

  function CivilOf(days: int): Date {
    DateOf(days * 86_400_000)
  }

  lemma SameDay(ms: int)
    ensures DateOf(ms) == CivilOf(ms / 86_400_000)
  {
    SameQuotient(ms / 86_400_000);
  }

  lemma SameQuotient(days: int)
    ensures days * 86_400_000 / 86_400_000 == days
  {
  }

  /** Where a day is in its era and year. */
  lemma Located(days: int) returns (era: int, yoe: int, doy: int)
    ensures 0 <= yoe < 400 && 0 <= doy < YearLength(yoe)
    ensures days + 719_468 == era * 146_097 + YearStart(yoe) + doy
    ensures CivilOf(days) == InYear(era, yoe, doy)
  {
    var z := days + 719_468;
    era := z / 146_097;
    var doe := z - era * 146_097;
    yoe := YearOfEra(doe);
    doy := doe - YearStart(yoe);
    YearFound(doe);
    SameQuotient(days);
  }

  /** And a day located so is the day found. */
  lemma LocatedIs(days: int, era: int, yoe: int, doy: int)
    requires 0 <= yoe < 400 && 0 <= doy < YearLength(yoe)
    requires days + 719_468 == era * 146_097 + YearStart(yoe) + doy
    ensures CivilOf(days) == InYear(era, yoe, doy)
  {
    hide YearOfEra, YearStart, YearLength, InYear;
    StartsGrow(yoe);
    DayFound(yoe, doy);
    EraOf(days + 719_468, era, YearStart(yoe) + doy);
    SameQuotient(days);
  }

  lemma EraOf(z: int, era: int, doe: int)
    requires z == era * 146_097 + doe && 0 <= doe < 146_097
    ensures z / 146_097 == era
  {
  }

  lemma StartsGrow(yoe: int)
    requires 0 <= yoe < 400
    ensures 0 <= YearStart(yoe) && YearStart(yoe) + YearLength(yoe) <= 146_097
  {
  }

  /** The closed form steps from each day to the next as the calendar does. */
  lemma StepsOn(days: int)
    ensures IsDate(CivilOf(days)) && CivilOf(days + 1) == DayAfter(CivilOf(days))
  {
    hide YearOfEra, YearStart, InYear, DayAfter, DateOf;
    var era, yoe, doy := Located(days);
    NextInYear(era, yoe, doy);
    YearFollows(yoe);
    if doy + 1 < YearLength(yoe) {
      LocatedIs(days + 1, era, yoe, doy + 1);
    } else if yoe < 399 {
      LocatedIs(days + 1, era, yoe + 1, 0);
    } else {
      YearZero();
      LocatedIs(days + 1, era + 1, 0, 0);
    }
  }

  lemma YearZero()
    ensures YearStart(0) == 0
  {
  }

  lemma BeforeAfter(date: Date)
    requires IsDate(date)
    ensures DayBefore(DayAfter(date)) == date
  {
  }

  lemma {:induction false} CivilIsCounted(days: int)
    ensures CivilOf(days) == Counted(days)
    decreases if days < 0 then -days else days
  {
    hide DateOf, DayAfter, DayBefore;
    if days == 0 {
      AtEpoch();
    } else if days > 0 {
      CivilIsCounted(days - 1);
      StepsOn(days - 1);
    } else {
      CivilIsCounted(days + 1);
      StepsOn(days);
      BeforeAfter(CivilOf(days));
    }
  }

  lemma AtEpoch()
    ensures CivilOf(0) == EPOCH
  {
    assert YearStart(369) == 134_774 && YearLength(369) == 365;
    LocatedIs(0, 4, 369, 306);
    hide DateOf;
    assert MonthOf(306) == 10;
  }

  /** For every time, before 1970 too, the closed form is the date the calendar counts to. */
  lemma DateIsCounted(ms: int)
    ensures IsDate(DateOf(ms)) && DateOf(ms) == Counted(ms / 86_400_000)
  {
    SameDay(ms);
    StepsOn(ms / 86_400_000);
    hide DateOf;
    CivilIsCounted(ms / 86_400_000);
  }

  lemma {:induction false} LaterDay(a: int, b: int)
    requires a < b
    ensures Earlier(CivilOf(a), CivilOf(b))
    decreases b - a
  {
    hide DateOf;
    StepsOn(b - 1);
    if a < b - 1 {
      LaterDay(a, b - 1);
    }
  }

  /** A later time never has an earlier date, and has a later one when its day is later. */
  lemma LaterTimes(earlier: int, later: int)
    requires earlier <= later
    ensures DateOf(earlier) == DateOf(later) || Earlier(DateOf(earlier), DateOf(later))
    ensures DateOf(earlier) == DateOf(later) <==> earlier / 86_400_000 == later / 86_400_000
  {
    SameDay(earlier);
    SameDay(later);
    hide DateOf;
    if earlier / 86_400_000 < later / 86_400_000 {
      LaterDay(earlier / 86_400_000, later / 86_400_000);
    }
  }

  // The text of a date: the full-date of section 5.6 of RFC 3339.

  predicate IsDigit(c: char) {
    '0' <= c <= '9'
  }

  /** `n` in decimal, with zeros in front up to `width` digits. */
  function Digits(n: nat, width: nat): string
    decreases n, width
  {
    var last := [(n % 10) as char + '0'];
    if n < 10 && width <= 1 then last else Digits(n / 10, if width > 0 then width - 1 else 0) + last
  }

  function Padded(n: int, width: nat): string {
    if n >= 0 then Digits(n, width) else "-" + Digits(-n, if width > 0 then width - 1 else 0)
  }

  function Text(date: Date): string
    requires IsDate(date)
  {
    Padded(date.year, 4) + "-" + Padded(date.month, 2) + "-" + Padded(date.day, 2)
  }

  /** The number some digits stand for. */
  function Number(s: string): int {
    if s == [] then 0 else 10 * Number(s[..|s| - 1]) + (s[|s| - 1] as int - '0' as int)
  }

  lemma {:induction false} DigitsNumber(n: nat, width: nat)
    ensures Number(Digits(n, width)) == n && forall c :: c in Digits(n, width) ==> IsDigit(c)
    decreases n, width
  {
    var last := [(n % 10) as char + '0'];
    if n < 10 && width <= 1 {
      assert last[..0] == [];
    } else {
      var before := Digits(n / 10, if width > 0 then width - 1 else 0);
      DigitsNumber(n / 10, if width > 0 then width - 1 else 0);
      assert (before + last)[..|before|] == before;
    }
  }

  lemma TwoDigits(n: nat)
    requires n < 100
    ensures |Digits(n, 2)| == 2
  {
  }

  lemma FourDigits(n: nat)
    requires n < 10_000
    ensures |Digits(n, 4)| == 4
  {
    TwoDigits(n / 100);
    assert n / 10 / 10 == n / 100;
  }

  /** In the years 0 to 9999 a date is written in its ten places and can be read back. */
  lemma FullDate(date: Date)
    requires IsDate(date) && 0 <= date.year < 10_000
    ensures var text := Text(date);
      && |text| == 10 && text[4] == '-' && text[7] == '-'
      && Number(text[..4]) == date.year && Number(text[5..7]) == date.month && Number(text[8..]) == date.day
      && forall i :: 0 <= i < 10 && i != 4 && i != 7 ==> IsDigit(text[i])
  {
    hide Digits, Number;
    FourDigits(date.year);
    TwoDigits(date.month);
    TwoDigits(date.day);
    DigitsNumber(date.year, 4);
    DigitsNumber(date.month, 2);
    DigitsNumber(date.day, 2);
    var y, m, d := Digits(date.year, 4), Digits(date.month, 2), Digits(date.day, 2);
    var text := Text(date);
    assert text == y + "-" + m + "-" + d;
    assert text[..4] == y && text[5..7] == m && text[8..] == d;
    forall i | 0 <= i < 10 && i != 4 && i != 7 ensures IsDigit(text[i]) {
      assert text[i] == if i < 4 then y[i] else if i < 7 then m[i - 5] else d[i - 8];
    }
  }

  lemma {:induction false} DigitsLong(n: nat, width: nat)
    ensures |Digits(n, width)| >= width && |Digits(n, width)| >= 1
    decreases n, width
  {
    if !(n < 10 && width <= 1) {
      DigitsLong(n / 10, if width > 0 then width - 1 else 0);
    }
  }

  /** In every year the text ends with month and day in their places, and what is before them is the
      year: its digits, after a sign if it is negative. */
  lemma EveryDate(date: Date)
    requires IsDate(date)
    ensures var text := Text(date); var n := |text|;
      && n >= 10 && text[n - 6] == '-' && text[n - 3] == '-'
      && Number(text[n - 5..n - 3]) == date.month && Number(text[n - 2..]) == date.day
      && (if date.year >= 0 then Number(text[..n - 6]) == date.year
          else text[0] == '-' && Number(text[1..n - 6]) == -date.year)
      && forall i :: 0 <= i < n - 6 && (date.year >= 0 || i > 0) ==> IsDigit(text[i])
  {
    hide Digits, Number;
    TwoDigits(date.month);
    TwoDigits(date.day);
    DigitsNumber(date.month, 2);
    DigitsNumber(date.day, 2);
    var sign, places := if date.year >= 0 then "" else "-", if date.year >= 0 then 4 else 3;
    var year := if date.year >= 0 then date.year else -date.year;
    DigitsNumber(year, places);
    DigitsLong(year, places);
    var y, m, d := Digits(year, places), Digits(date.month, 2), Digits(date.day, 2);
    var text := Text(date);
    assert text == sign + y + "-" + m + "-" + d;
    var n := |text|;
    assert text[|sign|..n - 6] == y && text[n - 5..n - 3] == m && text[n - 2..] == d;
    forall i | |sign| <= i < n - 6 ensures IsDigit(text[i]) {
      assert text[i] == y[i - |sign|];
    }
  }
}
