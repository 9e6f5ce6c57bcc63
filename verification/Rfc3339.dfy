/**
  Times to the second as section 5.6 of RFC 3339 writes them in UTC: `YYYY-MM-DDTHH:MM:SSZ`.
  Stored keys contain times only in this form.
 */
module Rfc3339 {
  import opened Basics
  import opened Digits
  import opened Times

  const DAYS_TO_1970: nat := 719_162
  const DAY: nat := 86_400

  predicate IsLeap(year: nat) {
    year % 4 == 0 && (year % 100 != 0 || year % 400 == 0)
  }

  /** The days from the first of January of year 1 to the first of January of a year. */
  function DaysBeforeYear(year: nat): nat
    requires 1 <= year
  {
    var y := year - 1;
    365 * y + y / 4 - y / 100 + y / 400
  }

  function DaysInYear(year: nat): nat {
    if IsLeap(year) then 366 else 365
  }

  lemma NextYear(year: nat)
    requires 1 <= year
    ensures year / 4 == (year - 1) / 4 + (if year % 4 == 0 then 1 else 0)
    ensures year / 100 == (year - 1) / 100 + (if year % 100 == 0 then 1 else 0)
    ensures year / 400 == (year - 1) / 400 + (if year % 400 == 0 then 1 else 0)
  {}

  lemma CenturiesAreDivisible(year: nat)
    ensures year % 100 == 0 ==> year % 4 == 0
    ensures year % 400 == 0 ==> year % 100 == 0
  {
    if year % 100 == 0 {
      assert year == 4 * (25 * (year / 100));
    }
    if year % 400 == 0 {
      assert year == 100 * (4 * (year / 400));
    }
  }

  lemma YearLength(year: nat)
    requires 1 <= year
    ensures DaysBeforeYear(year + 1) == DaysBeforeYear(year) + DaysInYear(year)
  {
    NextYear(year);
    CenturiesAreDivisible(year);
    assert IsLeap(year) <==> year % 4 == 0 && (year % 100 != 0 || year % 400 == 0);
    hide IsLeap;
  }

  lemma DayCount(s: Seconds)
    ensures 0 <= s / DAY + DAYS_TO_1970 < DaysBeforeYear(10_000) == 3_652_059
  {}

  lemma ClockOf(rest: nat)
    requires rest < DAY
    ensures rest / 3600 < 24 && rest / 60 % 60 < 60 && rest % 60 < 60
    ensures rest / 3600 * 3600 + rest / 60 % 60 * 60 + rest % 60 == rest
  {
    assert rest / 60 / 60 == rest / 3600;
  }

  /** The days of a year before the first of a month; the thirteenth stands for the end of the year. */
  function DaysBeforeMonth(month: nat, leap: bool): nat
    requires 1 <= month <= 13
  {
    var common := [0, 31, 59, 90, 120, 151, 181, 212, 243, 273, 304, 334, 365][month - 1];
    if leap && 2 < month then common + 1 else common
  }

  /** The year in which a day lies, looked for from a year at or before it. */
  function YearOf(day: nat, from: nat): (year: nat)
    requires 1 <= from <= 9999 && DaysBeforeYear(from) <= day < DaysBeforeYear(10_000)
    ensures 1 <= year <= 9999 && DaysBeforeYear(year) <= day < DaysBeforeYear(year + 1)
    decreases 10_000 - from
  {
    if day < DaysBeforeYear(from + 1) then from else YearOf(day, from + 1)
  }

  /** The month in which a day of a year lies. */
  function MonthOf(day: nat, leap: bool, from: nat): (month: nat)
    requires 1 <= from <= 12 && DaysBeforeMonth(from, leap) <= day < DaysBeforeMonth(13, leap)
    ensures 1 <= month <= 12 && DaysBeforeMonth(month, leap) <= day < DaysBeforeMonth(month + 1, leap)
    decreases 13 - from
  {
    if day < DaysBeforeMonth(from + 1, leap) then from else MonthOf(day, leap, from + 1)
  }

  datatype Civil = Civil(year: nat, month: nat, day: nat, hour: nat, minute: nat, second: nat)

  predicate ValidCivil(c: Civil) {
    && 1 <= c.year <= 9999 && 1 <= c.month <= 12
    && 1 <= c.day <= DaysBeforeMonth(c.month + 1, IsLeap(c.year)) - DaysBeforeMonth(c.month, IsLeap(c.year))
    && c.hour < 24 && c.minute < 60 && c.second < 60
  }

  function FromSeconds(s: Seconds): (c: Civil)
    ensures ValidCivil(c) && ToSeconds(c) == s
  {
    DayCount(s);
    ClockOf(s % DAY);
    FromDay(s / DAY + DAYS_TO_1970, s % DAY)
  }

  function FromDay(day: nat, rest: nat): (c: Civil)
    requires day < DaysBeforeYear(10_000)
    requires rest / 3600 < 24 && rest / 60 % 60 < 60 && rest % 60 < 60
    ensures ValidCivil(c)
    ensures day == DaysBeforeYear(c.year) + DaysBeforeMonth(c.month, IsLeap(c.year)) + c.day - 1
    ensures c.hour == rest / 3600 && c.minute == rest / 60 % 60 && c.second == rest % 60
  {
    var year := YearOf(day, 1);
    YearLength(year);
    var ofYear := day - DaysBeforeYear(year);
    var month := MonthOf(ofYear, IsLeap(year), 1);
    Civil(year, month, ofYear - DaysBeforeMonth(month, IsLeap(year)) + 1, rest / 3600, rest / 60 % 60, rest % 60)
  }

  function ToSeconds(c: Civil): int
    requires ValidCivil(c)
  {
    (DaysBeforeYear(c.year) + DaysBeforeMonth(c.month, IsLeap(c.year)) + c.day - 1 - DAYS_TO_1970) * DAY
    + c.hour * 3600 + c.minute * 60 + c.second
  }

  function Layout(year: string, month: string, day: string, hour: string, minute: string, second: string): string {
    year + "-" + month + "-" + day + "T" + hour + ":" + minute + ":" + second + "Z"
  }

  lemma FieldsOfLayout(year: string, month: string, day: string, hour: string, minute: string, second: string)
    requires |year| == 4 && |month| == 2 && |day| == 2 && |hour| == 2 && |minute| == 2 && |second| == 2
    ensures var t := Layout(year, month, day, hour, minute, second);
            && |t| == 20
            && t[4] == '-' && t[7] == '-' && t[10] == 'T' && t[13] == ':' && t[16] == ':' && t[19] == 'Z'
            && t[..4] == year && t[5..7] == month && t[8..10] == day
            && t[11..13] == hour && t[14..16] == minute && t[17..19] == second
  {
    var t := Layout(year, month, day, hour, minute, second);
    assert t == [year[0], year[1], year[2], year[3], '-', month[0], month[1], '-', day[0], day[1], 'T',
                 hour[0], hour[1], ':', minute[0], minute[1], ':', second[0], second[1], 'Z'];
    hide Layout;
    assert year == [year[0], year[1], year[2], year[3]];
    assert t[5..7] == [t[5], t[6]] == month && t[8..10] == [t[8], t[9]] == day;
    assert t[11..13] == [t[11], t[12]] == hour && t[14..16] == [t[14], t[15]] == minute;
    assert t[17..19] == [t[17], t[18]] == second;
  }

  function Show(s: Seconds): (t: string)
    ensures |t| == 20
  {
    var c := FromSeconds(s);
    Layout(Decimal(4, c.year), Decimal(2, c.month), Decimal(2, c.day),
           Decimal(2, c.hour), Decimal(2, c.minute), Decimal(2, c.second))
  }

  /** Reads a time back; nothing, when the text is not one. */
  function Parse(t: string): (s: Option<Seconds>) {
    if |t| == 20
       && t[4] == '-' && t[7] == '-' && t[10] == 'T' && t[13] == ':' && t[16] == ':' && t[19] == 'Z'
       && AllDigits(t[..4]) && AllDigits(t[5..7]) && AllDigits(t[8..10])
       && AllDigits(t[11..13]) && AllDigits(t[14..16]) && AllDigits(t[17..19])
    then
      var c := Civil(ParseDecimal(t[..4]), ParseDecimal(t[5..7]), ParseDecimal(t[8..10]),
                     ParseDecimal(t[11..13]), ParseDecimal(t[14..16]), ParseDecimal(t[17..19]));
      if ValidCivil(c) && MIN_SECOND <= ToSeconds(c) <= MAX_SECOND then Some(ToSeconds(c)) else None
    else None
  }

  /** Every time that can be stored reads back as itself. */
  lemma RoundTrip(s: Seconds)
    ensures Parse(Show(s)) == Some(s)
  {
    var c, t := FromSeconds(s), Show(s);
    assert Power(10, 2) == 100 && Power(10, 4) == 10_000;
    assert c.day <= 31 by { MonthLength(c.month, IsLeap(c.year)); }
    hide FromSeconds, ToSeconds, DaysBeforeYear, DaysBeforeMonth, Layout, Decimal, ParseDecimal, AllDigits, Power;
    DecimalRoundTrip(4, c.year);
    DecimalRoundTrip(2, c.month);
    DecimalRoundTrip(2, c.day);
    DecimalRoundTrip(2, c.hour);
    DecimalRoundTrip(2, c.minute);
    DecimalRoundTrip(2, c.second);
    FieldsOfLayout(Decimal(4, c.year), Decimal(2, c.month), Decimal(2, c.day),
                   Decimal(2, c.hour), Decimal(2, c.minute), Decimal(2, c.second));
  }

  lemma MonthLength(month: nat, leap: bool)
    requires 1 <= month <= 12
    ensures DaysBeforeMonth(month + 1, leap) - DaysBeforeMonth(month, leap) <= 31
  {}

  lemma HasNoSlash(s: Seconds)
    ensures '/' !in Show(s)
  {}
}
