/**
 * Calendar arithmetic behind the weekly roll-up (`isoWeekKey` in
 * apps/web/lib/analytics.ts). A date at midnight UTC is a day number counted from
 * 1970-01-01, as in ECMAScript.
 */
module IsoWeek {
  import opened Sequences

  // ---- The ECMAScript calendar ----

  /** Day number of January 1st (DayFromYear). */
  function Jan1(y: int): int {
    365 * (y - 1970) + (y - 1969) / 4 - (y - 1901) / 100 + (y - 1601) / 400
  }

  /** `getUTCDay`: 0 is Sunday, and 1970-01-01 was a Thursday. */
  function Weekday(day: int): int {
    (day + 4) % 7
  }

  predicate InYear(y: int, day: int) {
    Jan1(y) <= day < Jan1(y + 1)
  }

  lemma YearLength(y: int)
    ensures Jan1(y) + 365 <= Jan1(y + 1) <= Jan1(y) + 366
  {
    Quarters(y - 1969);
    Centuries(y - 1901);
    FourCenturies(y - 1601);
    CenturyIsLeapYear(y);
  }

  lemma Quarters(n: int)
    ensures (n + 1) / 4 == n / 4 + if (n + 1) % 4 == 0 then 1 else 0
  {
  }

  lemma Centuries(n: int)
    ensures (n + 1) / 100 == n / 100 + if (n + 1) % 100 == 0 then 1 else 0
  {
  }

  lemma FourCenturies(n: int)
    ensures (n + 1) / 400 == n / 400 + if (n + 1) % 400 == 0 then 1 else 0
  {
  }

  lemma CenturyIsLeapYear(y: int)
    ensures (y - 1900) % 100 == 0 ==> (y - 1968) % 4 == 0
    ensures (y - 1600) % 400 == 0 ==> (y - 1900) % 100 == 0
  {
  }

  lemma {:induction false} LaterYear(y: int, z: int)
    requires y <= z
    ensures Jan1(y) + 365 * (z - y) <= Jan1(z)
    decreases z - y
  {
    if y < z {
      YearLength(y);
      LaterYear(y + 1, z);
    }
  }

  /** `getUTCFullYear`: the year that contains the day, looked for upwards from y. */
  function YearFrom(y: int, day: int): (year: int)
    requires Jan1(y) <= day
    ensures y <= year && InYear(year, day)
    decreases day - Jan1(y)
  {
    YearLength(y);
    if day < Jan1(y + 1) then y else YearFrom(y + 1, day)
  }

  lemma YearIsUnique(y: int, z: int, day: int)
    requires InYear(y, day) && InYear(z, day)
    ensures y == z
  {
    if y < z {
      LaterYear(y + 1, z);
    } else if z < y {
      LaterYear(z + 1, y);
    }
  }

  /** The model reaches from the year -1 on: a week of January 0000 may belong to it. */
  const FIRST_YEAR := -1

  predicate Representable(day: int) {
    Jan1(FIRST_YEAR) + 3 <= day
  }

  function YearOf(day: int): (year: int)
    requires Jan1(FIRST_YEAR) <= day
    ensures InYear(year, day)
  {
    YearFrom(FIRST_YEAR, day)
  }

  // ---- isoWeekKey ----

  datatype Week = Week(year: int, week: int)

  /** `Date.UTC(y, 0, 4)`: years 0 to 99 mean 1900 to 1999. */
  function Jan4(y: int): int {
    Jan1(if 0 <= y <= 99 then 1900 + y else y) + 3
  }

  /** The Thursday of the day's Monday-to-Sunday week. */
  function ThursdayOf(day: int): int {
    day - (Weekday(day) + 6) % 7 + 3
  }

  /** `Math.round(days / 7)` */
  function RoundWeeks(days: int): int {
    (2 * days + 7) / 14
  }

  function WeekOf(day: int): Week
    requires Representable(day)
  {
    var target := ThursdayOf(day);
    var year := YearOf(target);
    var firstThursday := ThursdayOf(Jan4(year));
    Week(year, 1 + RoundWeeks(target - firstThursday))
  }

  // ---- What the week of a day is ----

  /** The two days lie in the same Monday-to-Sunday week. */
  ghost predicate SameWeek(a: int, b: int) {
    exists monday :: Weekday(monday) == 1 && monday <= a <= monday + 6 && monday <= b <= monday + 6
  }

  lemma ThursdayInWeek(day: int)
    ensures Weekday(ThursdayOf(day)) == 4 && Weekday(ThursdayOf(day) - 3) == 1
    ensures ThursdayOf(day) - 3 <= day <= ThursdayOf(day) + 3
  {
  }

  lemma SameWeekIsSameThursday(a: int, b: int)
    ensures SameWeek(a, b) <==> ThursdayOf(a) == ThursdayOf(b)
  {
    ThursdayInWeek(a);
    ThursdayInWeek(b);
    if ThursdayOf(a) == ThursdayOf(b) {
      var monday := ThursdayOf(a) - 3;
      assert Weekday(monday) == 1 && monday <= a <= monday + 6 && monday <= b <= monday + 6;
    }
  }

  lemma ThursdaysApart(a: int, b: int)
    requires Weekday(a) == 4 && Weekday(b) == 4
    ensures (a - b) % 7 == 0 && RoundWeeks(a - b) * 7 == a - b
  {
    var w := (a - b) / 7;
    assert a - b == 7 * w;
    assert (2 * (7 * w) + 7) / 14 == w;
  }

  /** The Thursday of a week can be computed back from the year and number of the week. */
  lemma WeekDeterminesThursday(day: int)
    requires Representable(day)
    ensures ThursdayOf(day) == ThursdayOf(Jan4(WeekOf(day).year)) + 7 * (WeekOf(day).week - 1)
  {
    ThursdayInWeek(day);
    ThursdayInWeek(Jan4(WeekOf(day).year));
    ThursdaysApart(ThursdayOf(day), ThursdayOf(Jan4(WeekOf(day).year)));
  }

  /** Two days have the same year and week if and only if they lie in the same week. */
  lemma WeekIffSameWeek(a: int, b: int)
    requires Representable(a) && Representable(b)
    ensures WeekOf(a) == WeekOf(b) <==> SameWeek(a, b)
  {
    SameWeekIsSameThursday(a, b);
    WeekDeterminesThursday(a);
    WeekDeterminesThursday(b);
  }

  /** Clause 4.1.4 of ISO 8601:2004: a week belongs to the year of its Thursday, and is counted from the first one. */
  ghost predicate IsIsoWeek(day: int, w: Week) {
    var thursday := ThursdayOf(day);
    && InYear(w.year, thursday)
    && exists first :: Weekday(first) == 4 && Jan1(w.year) <= first <= Jan1(w.year) + 6
         && thursday == first + 7 * (w.week - 1)
  }

  /** There is only one: the year is that of the Thursday, and a year's first seven days hold one Thursday. */
  lemma IsoWeekIsUnique(day: int, v: Week, w: Week)
    requires IsIsoWeek(day, v) && IsIsoWeek(day, w)
    ensures v == w
  {
    YearIsUnique(v.year, w.year, ThursdayOf(day));
  }

  lemma FirstThursday(y: int)
    ensures var first := ThursdayOf(Jan1(y) + 3); Weekday(first) == 4 && Jan1(y) <= first <= Jan1(y) + 6
  {
    ThursdayInWeek(Jan1(y) + 3);
  }

  /** Where `Date.UTC` takes the year at face value, the result is the ISO week, and no other is; it is between 1 and 53. */
  lemma WeekIsIso(day: int)
    requires Representable(day) && !(0 <= WeekOf(day).year <= 99)
    ensures forall w :: IsIsoWeek(day, w) <==> w == WeekOf(day)
    ensures 1 <= WeekOf(day).week <= 53
  {
    var w := WeekOf(day);
    var first := ThursdayOf(Jan4(w.year));
    FirstThursday(w.year);
    WeekDeterminesThursday(day);
    ThursdayInWeek(day);
    YearLength(w.year);
    ThursdaysApart(ThursdayOf(day), first);
    assert IsIsoWeek(day, w);
    forall v | IsIsoWeek(day, v) ensures v == w {
      IsoWeekIsUnique(day, v, w);
    }
  }

  /** For the years 0 to 99 it counts from a Thursday nineteen centuries later. */
  lemma EarlyWeekIsNegative(day: int)
    requires Representable(day) && 0 <= WeekOf(day).year <= 99
    ensures WeekOf(day).week < 0
  {
    var y := WeekOf(day).year;
    WeekDeterminesThursday(day);
    FirstThursday(1900 + y);
    LaterYear(y + 1, 1900 + y);
  }

  /** The week number is in range exactly when the week's year is not one of 0 to 99. */
  lemma WeekInRangeIff(day: int)
    requires Representable(day)
    ensures 1 <= WeekOf(day).week <= 53 <==> !(0 <= WeekOf(day).year <= 99)
  {
    if 0 <= WeekOf(day).year <= 99 {
      EarlyWeekIsNegative(day);
    } else {
      WeekIsIso(day);
    }
  }

  // ---- The key as text ----

  function DigitChar(d: int): char
    requires 0 <= d <= 9
  {
    ['0', '1', '2', '3', '4', '5', '6', '7', '8', '9'][d]
  }

  function Digits(n: nat): string {
    if n < 10 then [DigitChar(n)] else Digits(n / 10) + [DigitChar(n % 10)]
  }

  /** `String(n)` */
  function Decimal(n: int): string {
    if n < 0 then "-" + Digits(-n) else Digits(n)
  }

  /** `s.padStart(2, "0")` */
  function PadStart2(s: string): string {
    if |s| == 0 then "00" else if |s| == 1 then "0" + s else s
  }

  function KeyText(w: Week): string {
    Decimal(w.year) + "-W" + PadStart2(Decimal(w.week))
  }

  /** A week number in range is printed with two digits. */
  lemma KeyTextShape(w: Week)
    requires 1 <= w.week <= 53
    ensures KeyText(w) == Decimal(w.year) + "-W" + [DigitChar(w.week / 10), DigitChar(w.week % 10)]
  {
    if w.week >= 10 {
      assert Digits(w.week) == Digits(w.week / 10) + [DigitChar(w.week % 10)];
      assert Digits(w.week / 10) == [DigitChar(w.week / 10)];
    }
  }

  predicate IsDigit(c: char) {
    '0' <= c <= '9'
  }

  function DigitValue(c: char): int {
    c as int - '0' as int
  }

  /** Reading decimal digits, with leading zeros allowed. */
  function Value(s: string): int {
    if s == "" then 0 else Value(s[..|s| - 1]) * 10 + DigitValue(s[|s| - 1])
  }

  function NumberOf(s: string): int {
    if s != "" && s[0] == '-' then -Value(s[1..]) else Value(s)
  }

  lemma {:induction false} DigitsRoundTrip(n: nat)
    ensures Value(Digits(n)) == n && Digits(n) != "" && forall i :: 0 <= i < |Digits(n)| ==> IsDigit(Digits(n)[i])
    ensures Value("0" + Digits(n)) == n
    decreases n
  {
    if n < 10 {
      assert Digits(n)[..0] == "" && ("0" + Digits(n))[..1] == "0" && "0"[..0] == "";
    } else {
      DigitsRoundTrip(n / 10);
      var s := Digits(n);
      assert s[..|s| - 1] == Digits(n / 10);
      assert ("0" + s)[..|s|] == "0" + Digits(n / 10);
    }
  }

  lemma DecimalRoundTrip(n: int)
    ensures NumberOf(Decimal(n)) == n && NumberOf(PadStart2(Decimal(n))) == n
    ensures 'W' !in Decimal(n) && 'W' !in PadStart2(Decimal(n))
  {
    if n < 0 {
      NegativeRoundTrip(n);
    } else {
      DigitsRoundTrip(n);
      assert forall c :: c in Digits(n) ==> IsDigit(c);
    }
  }

  lemma NegativeRoundTrip(n: int)
    requires n < 0
    ensures NumberOf(Decimal(n)) == n && |Decimal(n)| >= 2 && 'W' !in Decimal(n)
  {
    DigitsRoundTrip(-n);
    MinusSign(Digits(-n));
  }

  lemma MinusSign(s: string)
    requires s != "" && forall i :: 0 <= i < |s| ==> IsDigit(s[i])
    ensures NumberOf("-" + s) == -Value(s) && |"-" + s| >= 2 && 'W' !in "-" + s
  {
    assert ("-" + s)[1..] == s;
    assert forall c :: c in s ==> IsDigit(c);
  }

  lemma SameBefore(a: string, b: string, c: char)
    ensures a + [c] == b + [c] ==> a == b
  {
    assert (a + [c])[..|a|] == a && (b + [c])[..|b|] == b;
  }

  lemma KeyTextInjective(v: Week, w: Week)
    ensures KeyText(v) == KeyText(w) <==> v == w
  {
    if KeyText(v) == KeyText(w) {
      KeyTextParts(v);
      KeyTextParts(w);
      FirstSeparator(Decimal(v.year) + ['-'], PadStart2(Decimal(v.week)), Decimal(w.year) + ['-'], PadStart2(Decimal(w.week)), 'W');
      SameBefore(Decimal(v.year), Decimal(w.year), '-');
      DecimalRoundTrip(v.year);
      DecimalRoundTrip(v.week);
      DecimalRoundTrip(w.year);
      DecimalRoundTrip(w.week);
    }
  }

  /** The only W of a key separates the year from the week. */
  lemma KeyTextParts(v: Week)
    ensures KeyText(v) == Decimal(v.year) + ['-'] + ['W'] + PadStart2(Decimal(v.week))
    ensures 'W' !in Decimal(v.year) + ['-']
  {
    DecimalRoundTrip(v.year);
  }
}
