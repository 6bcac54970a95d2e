/**
 * Rolling a daily series up into ISO weeks or months (`bucketDaily` in
 * apps/web/lib/analytics.ts). Rates and means are over the reals.
 */
module Analytics {
  import opened Wrappers
  import opened FirstSeenOrder
  import opened Grouping
  import opened IsoWeek

  datatype DailyPoint = DailyPoint(
    day: IsoDay,
    uptimePct: Option<real>,
    avgResponseMs: Option<real>,
    totalChecks: int,
    failedChecks: int)

  datatype Bucket = ByDay | ByWeek | ByMonth

  // ---- Days as text: YYYY-MM-DD ----

  function TwoDigits(s: string, i: nat): int
    requires i + 1 < |s|
  {
    DigitValue(s[i]) * 10 + DigitValue(s[i + 1])
  }

  predicate DayShape(s: string) {
    |s| == 10 && s[4] == '-' && s[7] == '-'
    && forall i :: 0 <= i < 10 && i != 4 && i != 7 ==> IsDigit(s[i])
  }

  function YearText(s: string): int
    requires DayShape(s)
  {
    TwoDigits(s, 0) * 100 + TwoDigits(s, 2)
  }

  function MonthText(s: string): int
    requires DayShape(s)
  {
    TwoDigits(s, 5)
  }

  predicate LeapYear(y: int) {
    y % 4 == 0 && (y % 100 != 0 || y % 400 == 0)
  }

  /** Days of the year before the month; month 13 stands for the whole year. */
  function DaysBefore(y: int, m: int): int
    requires 1 <= m <= 13
  {
    [0, 31, 59, 90, 120, 151, 181, 212, 243, 273, 304, 334, 365][m - 1] + if m > 2 && LeapYear(y) then 1 else 0
  }

  /** A date of the proleptic Gregorian calendar, in the years 0 to 9999. */
  predicate ValidDay(s: string) {
    && DayShape(s)
    && 1 <= MonthText(s) <= 12
    && 1 <= TwoDigits(s, 8) <= DaysBefore(YearText(s), MonthText(s) + 1) - DaysBefore(YearText(s), MonthText(s))
  }

  type IsoDay = s: string | ValidDay(s) witness "1970-01-01"

  function DayNumber(s: IsoDay): int {
    Jan1(YearText(s)) + DaysBefore(YearText(s), MonthText(s)) + TwoDigits(s, 8) - 1
  }

  lemma YearLengthIsCalendar(y: int)
    ensures Jan1(y + 1) - Jan1(y) == DaysBefore(y, 13)
  {
    Quarters(y - 1969);
    Centuries(y - 1901);
    FourCenturies(y - 1601);
    LeapRules(y);
  }

  lemma LeapRules(y: int)
    ensures y % 4 == 0 <==> (y - 1968) % 4 == 0
    ensures y % 100 == 0 <==> (y - 1900) % 100 == 0
    ensures y % 400 == 0 <==> (y - 1600) % 400 == 0
    ensures (y % 400 == 0 ==> y % 100 == 0) && (y % 100 == 0 ==> y % 4 == 0)
  {
    Rule4(y);
    Rule100(y);
    Rule400(y);
  }

  lemma Rule4(y: int)
    ensures y % 4 == 0 <==> (y - 1968) % 4 == 0
  {
  }

  lemma Rule100(y: int)
    ensures y % 100 == 0 <==> (y - 1900) % 100 == 0
    ensures y % 100 == 0 ==> y % 4 == 0
  {
    var q := y / 100;
    assert y == 100 * q + y % 100;
  }

  lemma Rule400(y: int)
    ensures y % 400 == 0 <==> (y - 1600) % 400 == 0
    ensures y % 400 == 0 ==> y % 100 == 0
  {
    var q := y / 400;
    assert y == 400 * q + y % 400;
  }

  lemma DaysBeforeLater(y: int, m: int, n: int)
    requires 1 <= m <= n <= 13
    ensures 0 <= DaysBefore(y, m) <= DaysBefore(y, n)
  {
  }

  function MonthIndex(s: IsoDay): int {
    YearText(s) * 12 + MonthText(s)
  }

  /** A later month means a later day. */
  lemma MonthsInOrder(a: IsoDay, b: IsoDay)
    requires MonthIndex(a) < MonthIndex(b)
    ensures DayNumber(a) < DayNumber(b)
  {
    var y, m, z, n := YearText(a), MonthText(a), YearText(b), MonthText(b);
    DaysBeforeLater(z, 1, n);
    DayInMonth(a);
    DayInMonth(b);
    if y < z {
      DaysBeforeLater(y, m + 1, 13);
      YearLengthIsCalendar(y);
      LaterYear(y + 1, z);
    } else {
      DaysBeforeLater(y, m + 1, n);
    }
  }

  lemma DayInMonth(s: IsoDay)
    ensures var y, m := YearText(s), MonthText(s);
      Jan1(y) + DaysBefore(y, m) <= DayNumber(s) < Jan1(y) + DaysBefore(y, m + 1)
  {
  }

  lemma DaysAreRepresentable(s: IsoDay)
    ensures Representable(DayNumber(s))
  {
    DaysBeforeLater(YearText(s), 1, MonthText(s));
    LaterYear(-1, 0);
    LaterYear(0, YearText(s));
  }

  // ---- Keys ----

  function IsoWeekKey(day: IsoDay): string {
    DaysAreRepresentable(day);
    KeyText(WeekOf(DayNumber(day)))
  }

  function KeyOf(day: IsoDay, bucket: Bucket): string {
    if bucket == ByMonth then day[..7] else IsoWeekKey(day)
  }

  /** The place of the day's bucket in time. */
  function Rank(day: IsoDay, bucket: Bucket): int {
    if bucket == ByMonth then MonthIndex(day) else ThursdayOf(DayNumber(day))
  }

  lemma MonthKeyIff(a: IsoDay, b: IsoDay)
    ensures a[..7] == b[..7] <==> MonthIndex(a) == MonthIndex(b)
  {
    if a[..7] == b[..7] {
      assert forall i :: 0 <= i < 7 ==> a[i] == a[..7][i] && b[i] == b[..7][i];
    }
    if MonthIndex(a) == MonthIndex(b) {
      SameTwoDigits(a, b, 0);
      SameTwoDigits(a, b, 2);
      SameTwoDigits(a, b, 5);
      SameMonthDigits(a, b);
    }
  }

  lemma TwoDigitsRange(s: IsoDay, i: nat)
    requires i == 0 || i == 2 || i == 5
    ensures 0 <= TwoDigits(s, i) <= 99
  {
    assert IsDigit(s[i]) && IsDigit(s[i + 1]);
  }

  lemma SameTwoDigits(a: IsoDay, b: IsoDay, i: nat)
    requires i == 0 || i == 2 || i == 5
    ensures TwoDigits(a, i) == TwoDigits(b, i) ==> a[i] == b[i] && a[i + 1] == b[i + 1]
  {
    assert IsDigit(a[i]) && IsDigit(a[i + 1]) && IsDigit(b[i]) && IsDigit(b[i + 1]);
  }

  lemma SameMonthDigits(a: IsoDay, b: IsoDay)
    requires MonthIndex(a) == MonthIndex(b)
    ensures TwoDigits(a, 0) == TwoDigits(b, 0) && TwoDigits(a, 2) == TwoDigits(b, 2) && TwoDigits(a, 5) == TwoDigits(b, 5)
  {
    TwoDigitsRange(a, 2);
    TwoDigitsRange(b, 2);
    SameYearAndMonth(YearText(a), MonthText(a), YearText(b), MonthText(b));
    SameHundreds(TwoDigits(a, 0), TwoDigits(a, 2), TwoDigits(b, 0), TwoDigits(b, 2));
  }

  lemma SameYearAndMonth(y: int, m: int, z: int, n: int)
    requires y * 12 + m == z * 12 + n && 1 <= m <= 12 && 1 <= n <= 12
    ensures y == z && m == n
  {
  }

  lemma SameHundreds(a: int, b: int, c: int, d: int)
    requires a * 100 + b == c * 100 + d && 0 <= b <= 99 && 0 <= d <= 99
    ensures a == c && b == d
  {
  }

  /** Two dates share a week key if and only if they lie in the same Monday-to-Sunday week. */
  lemma WeekKeyIff(a: IsoDay, b: IsoDay)
    ensures IsoWeekKey(a) == IsoWeekKey(b) <==> SameWeek(DayNumber(a), DayNumber(b))
  {
    DaysAreRepresentable(a);
    DaysAreRepresentable(b);
    KeyTextInjective(WeekOf(DayNumber(a)), WeekOf(DayNumber(b)));
    WeekIffSameWeek(DayNumber(a), DayNumber(b));
  }

  /** Equal keys are equal places in time. */
  lemma KeysAreRanks(a: IsoDay, b: IsoDay, bucket: Bucket)
    ensures KeyOf(a, bucket) == KeyOf(b, bucket) <==> Rank(a, bucket) == Rank(b, bucket)
  {
    if bucket == ByMonth {
      MonthKeyIff(a, b);
    } else {
      WeekKeyIff(a, b);
      SameWeekIsSameThursday(DayNumber(a), DayNumber(b));
    }
  }

  lemma LaterThursday(a: int, b: int)
    requires a <= b
    ensures ThursdayOf(a) <= ThursdayOf(b)
  {
  }

  /** Places in time follow the calendar. */
  lemma RanksFollowTime(a: IsoDay, b: IsoDay, bucket: Bucket)
    requires DayNumber(a) <= DayNumber(b)
    ensures Rank(a, bucket) <= Rank(b, bucket)
  {
    if bucket == ByMonth {
      if MonthIndex(b) < MonthIndex(a) {
        MonthsInOrder(b, a);
      }
    } else {
      LaterThursday(DayNumber(a), DayNumber(b));
    }
  }

  // ---- Buckets ----

  function Responses(points: seq<DailyPoint>): seq<real> {
    if points == [] then []
    else
      var last := points[|points| - 1];
      Responses(points[..|points| - 1]) + if last.avgResponseMs.Some? then [last.avgResponseMs.value] else []
  }

  function SumReal(xs: seq<real>): real {
    if xs == [] then 0.0 else SumReal(xs[..|xs| - 1]) + xs[|xs| - 1]
  }

  /** `Math.round` */
  function Round(x: real): int {
    (x + 0.5).Floor
  }

  function Round2(x: real): real {
    Round(x * 100.0) as real / 100.0
  }

  const TOTAL_CHECKS: DailyPoint -> int := (p: DailyPoint) => p.totalChecks
  const FAILED_CHECKS: DailyPoint -> int := (p: DailyPoint) => p.failedChecks

  /** One point for all days of a bucket: counts are added, uptime is re-derived from them. */
  function Aggregate(days: seq<DailyPoint>): DailyPoint
    requires days != []
  {
    var total, failed := Sum(days, TOTAL_CHECKS), Sum(days, FAILED_CHECKS);
    var responses := Responses(days);
    DailyPoint(
      days[0].day,
      if total > 0 then Some(Round2((total - failed) as real / total as real * 100.0)) else None,
      if responses != [] then Some(Round(SumReal(responses) / |responses| as real) as real) else None,
      total,
      failed)
  }

  function BucketKey(bucket: Bucket): DailyPoint -> string {
    (p: DailyPoint) => KeyOf(p.day, bucket)
  }

  /** The days of each bucket, in the order in which the buckets are first seen. */
  function Buckets(points: seq<DailyPoint>, bucket: Bucket): seq<seq<DailyPoint>> {
    var order := Order(points, BucketKey(bucket));
    seq(|order|, i requires 0 <= i < |order| => Filter(points, BucketKey(bucket), order[i]))
  }

  lemma BucketsAreInhabited(points: seq<DailyPoint>, bucket: Bucket)
    ensures forall i :: 0 <= i < |Buckets(points, bucket)| ==> Buckets(points, bucket)[i] != []
  {
    var key := BucketKey(bucket);
    var order := Order(points, key);
    forall i | 0 <= i < |order| ensures Filter(points, key, order[i]) != [] {
      FilterIsExact(points, key, order[i]);
      SeenIff(Keys(points, key), order[i]);
    }
  }

  /** The rolled-up series: one point for each bucket. */
  function Rolled(points: seq<DailyPoint>, bucket: Bucket): seq<DailyPoint> {
    BucketsAreInhabited(points, bucket);
    var days := Buckets(points, bucket);
    seq(|days|, i requires 0 <= i < |days| => Aggregate(days[i]))
  }

  method BucketDaily(points: seq<DailyPoint>, bucket: Bucket) returns (rolled: seq<DailyPoint>)
    ensures rolled == if bucket == ByDay || points == [] then points else Rolled(points, bucket)
    ensures bucket != ByDay ==> AllReport(points, bucket, rolled)
  {
    if bucket == ByDay || points == [] {
      return points;
    }
    var order, groups := Group(points, BucketKey(bucket));
    rolled := seq(|order|, i requires 0 <= i < |order| => Aggregate(groups[order[i]]));
    assert rolled == Rolled(points, bucket);
    RolledAllReport(points, bucket);
  }

  // ---- What a bucket reports ----

  /** The checks of the points in question. */
  function ChecksWhere(points: seq<DailyPoint>, here: DailyPoint -> bool): int {
    if points == [] then 0
    else
      var last := points[|points| - 1];
      ChecksWhere(points[..|points| - 1], here) + if here(last) then last.totalChecks else 0
  }

  function FailuresWhere(points: seq<DailyPoint>, here: DailyPoint -> bool): int {
    if points == [] then 0
    else
      var last := points[|points| - 1];
      FailuresWhere(points[..|points| - 1], here) + if here(last) then last.failedChecks else 0
  }

  /** How many of them have a mean response time. */
  function ResponsesWhere(points: seq<DailyPoint>, here: DailyPoint -> bool): nat {
    if points == [] then 0
    else
      var last := points[|points| - 1];
      ResponsesWhere(points[..|points| - 1], here) + if here(last) && last.avgResponseMs.Some? then 1 else 0
  }

  function ResponseTotalWhere(points: seq<DailyPoint>, here: DailyPoint -> bool): real {
    if points == [] then 0.0
    else
      var last := points[|points| - 1];
      ResponseTotalWhere(points[..|points| - 1], here)
        + if here(last) && last.avgResponseMs.Some? then last.avgResponseMs.value else 0.0
  }

  predicate Near(x: real, y: real, margin: real) {
    x - margin <= y <= x + margin
  }

  /**
   * The figures of a bucket, from those points of the series that lie in it: the counts
   * are added up; the uptime is the share of the checks that did not fail, in percent to
   * two decimals, and missing without checks; the response time is the plain mean of the
   * days that have one, to the nearest integer, and missing if none has.
   */
  predicate Reports(points: seq<DailyPoint>, here: DailyPoint -> bool, r: DailyPoint) {
    var checks, failures := ChecksWhere(points, here), FailuresWhere(points, here);
    var n, total := ResponsesWhere(points, here), ResponseTotalWhere(points, here);
    && r.totalChecks == checks && r.failedChecks == failures
    && (r.uptimePct.Some? <==> checks > 0)
    && (checks > 0 ==> Near(r.uptimePct.value, 100.0 * ((checks - failures) as real / checks as real), 0.005))
    && (r.avgResponseMs.Some? <==> n > 0)
    && (n > 0 ==> Near(r.avgResponseMs.value, total / n as real, 0.5))
  }

  lemma RoundIsNear(x: real)
    ensures Near(Round(x) as real, x, 0.5)
  {
  }

  lemma Round2IsNear(x: real)
    ensures Near(Round2(x), x, 0.005)
  {
    RoundIsNear(x * 100.0);
  }

  lemma ResponsesAppend(days: seq<DailyPoint>, p: DailyPoint)
    ensures |Responses(days + [p])| == |Responses(days)| + if p.avgResponseMs.Some? then 1 else 0
    ensures SumReal(Responses(days + [p])) == SumReal(Responses(days)) + if p.avgResponseMs.Some? then p.avgResponseMs.value else 0.0
  {
    assert (days + [p])[..|days|] == days;
    if p.avgResponseMs.Some? {
      var xs := Responses(days);
      assert (xs + [p.avgResponseMs.value])[..|xs|] == xs;
    } else {
      assert Responses(days) + [] == Responses(days);
    }
  }

  lemma GroupStep(points: seq<DailyPoint>, key: DailyPoint -> string, k: string)
    requires points != []
    ensures var before, last := points[..|points| - 1], points[|points| - 1];
      Filter(points, key, k) == Filter(before, key, k) + if key(last) == k then [last] else []
  {
  }

  /** The points filtered by key are those in question. */
  lemma {:induction false} GroupCounts(points: seq<DailyPoint>, key: DailyPoint -> string, k: string, here: DailyPoint -> bool)
    requires forall p :: p in points ==> (key(p) == k <==> here(p))
    ensures Sum(Filter(points, key, k), TOTAL_CHECKS) == ChecksWhere(points, here)
    ensures Sum(Filter(points, key, k), FAILED_CHECKS) == FailuresWhere(points, here)
  {
    if points != [] {
      var before, last := points[..|points| - 1], points[|points| - 1];
      var earlier := Filter(before, key, k);
      assert points == before + [last];
      GroupCounts(before, key, k, here);
      GroupStep(points, key, k);
      assert earlier + [] == earlier;
      SumAppend(earlier, last, TOTAL_CHECKS);
      SumAppend(earlier, last, FAILED_CHECKS);
    }
  }

  lemma {:induction false} GroupResponses(points: seq<DailyPoint>, key: DailyPoint -> string, k: string, here: DailyPoint -> bool)
    requires forall p :: p in points ==> (key(p) == k <==> here(p))
    ensures |Responses(Filter(points, key, k))| == ResponsesWhere(points, here)
    ensures SumReal(Responses(Filter(points, key, k))) == ResponseTotalWhere(points, here)
  {
    if points != [] {
      var before, last := points[..|points| - 1], points[|points| - 1];
      var earlier := Filter(before, key, k);
      assert points == before + [last];
      GroupResponses(before, key, k, here);
      GroupStep(points, key, k);
      assert earlier + [] == earlier;
      ResponsesAppend(earlier, last);
    }
  }

  lemma AggregateReports(points: seq<DailyPoint>, key: DailyPoint -> string, k: string, here: DailyPoint -> bool)
    requires Filter(points, key, k) != [] && forall p :: p in points ==> (key(p) == k <==> here(p))
    ensures Reports(points, here, Aggregate(Filter(points, key, k)))
  {
    var group := Filter(points, key, k);
    var total, failed, responses := Sum(group, TOTAL_CHECKS), Sum(group, FAILED_CHECKS), Responses(group);
    GroupCounts(points, key, k, here);
    GroupResponses(points, key, k, here);
    if total > 0 {
      Round2IsNear((total - failed) as real / total as real * 100.0);
    }
    if responses != [] {
      RoundIsNear(SumReal(responses) / |responses| as real);
    }
  }

  lemma {:induction false} FilterStartsFirst(points: seq<DailyPoint>, key: DailyPoint -> string, k: string) returns (a: nat)
    requires Filter(points, key, k) != []
    ensures a < |points| && points[a] == Filter(points, key, k)[0] && key(points[a]) == k
    ensures forall x :: 0 <= x < a ==> key(points[x]) != k
  {
    var n := |points| - 1;
    if Filter(points[..n], key, k) == [] {
      a := n;
      forall x | 0 <= x < n ensures key(points[x]) != k {
        FilterIsExact(points[..n], key, k);
        assert points[..n][x] in points[..n];
      }
    } else {
      a := FilterStartsFirst(points[..n], key, k);
    }
  }

  /** Lies in the week or month with this place in time. */
  function InBucket(bucket: Bucket, rank: int): DailyPoint -> bool {
    (p: DailyPoint) => Rank(p.day, bucket) == rank
  }

  /**
   * Each point of the rolled-up series reports the figures of its week or month, and its
   * day is that of the first point there.
   */
  lemma RolledReports(points: seq<DailyPoint>, bucket: Bucket, i: nat) returns (a: nat)
    requires i < |Rolled(points, bucket)|
    ensures var r := Rolled(points, bucket)[i];
      && a < |points| && points[a].day == r.day
      && (forall x :: 0 <= x < a ==> Rank(points[x].day, bucket) != Rank(r.day, bucket))
      && Reports(points, InBucket(bucket, Rank(r.day, bucket)), r)
  {
    var key := BucketKey(bucket);
    var k := Order(points, key)[i];
    BucketsAreInhabited(points, bucket);
    assert Buckets(points, bucket)[i] == Filter(points, key, k);
    a := FilterStartsFirst(points, key, k);
    var first := points[a];
    forall p | p in points ensures key(p) == k <==> InBucket(bucket, Rank(first.day, bucket))(p) {
      KeysAreRanks(p.day, first.day, bucket);
    }
    AggregateReports(points, key, k, InBucket(bucket, Rank(first.day, bucket)));
    forall x | 0 <= x < a ensures Rank(points[x].day, bucket) != Rank(first.day, bucket) {
      assert points[x] in points;
    }
  }

  /** Every point of the rolled-up series reports the figures of its own week or month. */
  ghost predicate AllReport(points: seq<DailyPoint>, bucket: Bucket, rolled: seq<DailyPoint>) {
    forall i :: 0 <= i < |rolled| ==> Reports(points, InBucket(bucket, Rank(rolled[i].day, bucket)), rolled[i])
  }

  lemma RolledAllReport(points: seq<DailyPoint>, bucket: Bucket)
    ensures AllReport(points, bucket, Rolled(points, bucket))
  {
    forall i | 0 <= i < |Rolled(points, bucket)|
      ensures Reports(points, InBucket(bucket, Rank(Rolled(points, bucket)[i].day, bucket)), Rolled(points, bucket)[i])
    {
      var _ := RolledReports(points, bucket, i);
    }
  }

  /** The total of n values, each between the bounds. */
  predicate Between(total: real, n: nat, lo: real, hi: real) {
    lo * n as real <= total <= hi * n as real
  }

  lemma OneMoreValue(total: real, n: nat, v: real, lo: real, hi: real)
    requires Between(total, n, lo, hi) && lo <= v <= hi
    ensures Between(total + v, n + 1, lo, hi)
  {
    assert lo * (n + 1) as real == lo * n as real + lo;
    assert hi * (n + 1) as real == hi * n as real + hi;
  }

  lemma {:induction false} ResponsesWithin(points: seq<DailyPoint>, here: DailyPoint -> bool, lo: real, hi: real)
    requires forall p :: p in points && here(p) && p.avgResponseMs.Some? ==> lo <= p.avgResponseMs.value <= hi
    ensures Between(ResponseTotalWhere(points, here), ResponsesWhere(points, here), lo, hi)
  {
    if points != [] {
      var before, last := points[..|points| - 1], points[|points| - 1];
      assert last in points;
      ResponsesWithin(before, here, lo, hi);
      if here(last) && last.avgResponseMs.Some? {
        OneMoreValue(ResponseTotalWhere(before, here), ResponsesWhere(before, here), last.avgResponseMs.value, lo, hi);
      }
    }
  }

  lemma MeanWithin(total: real, n: nat, lo: real, hi: real)
    requires n > 0 && Between(total, n, lo, hi)
    ensures lo <= total / n as real <= hi
  {
  }

  /** A reported response time lies between those of its days, up to rounding. */
  lemma MeanLiesBetween(points: seq<DailyPoint>, here: DailyPoint -> bool, r: DailyPoint, lo: real, hi: real)
    requires Reports(points, here, r) && r.avgResponseMs.Some?
    requires forall p :: p in points && here(p) && p.avgResponseMs.Some? ==> lo <= p.avgResponseMs.value <= hi
    ensures lo - 0.5 <= r.avgResponseMs.value <= hi + 0.5
  {
    ResponsesWithin(points, here, lo, hi);
    MeanWithin(ResponseTotalWhere(points, here), ResponsesWhere(points, here), lo, hi);
  }

  // ---- Conservation ----

  /** A figure that `Aggregate` adds up keeps its sum over the whole series. */
  lemma FigureIsConserved(points: seq<DailyPoint>, bucket: Bucket, f: DailyPoint -> int)
    requires forall days: seq<DailyPoint> :: days != [] ==> f(Aggregate(days)) == Sum(days, f)
    ensures Sum(Rolled(points, bucket), f) == Sum(points, f)
  {
    var key := BucketKey(bucket);
    var days, order := Buckets(points, bucket), Order(points, key);
    BucketsAreInhabited(points, bucket);
    forall i | 0 <= i < |order| ensures f(Rolled(points, bucket)[i]) == Sum(Filter(points, key, order[i]), f) {
      assert days[i] == Filter(points, key, order[i]) && days[i] != [];
    }
    SumOfFigures(points, key, order, Rolled(points, bucket), f);
    GroupsConserve(points, key, f);
  }

  /** Rolling up loses no checks and no failures, whatever the order of the input. */
  lemma RollUpConserves(points: seq<DailyPoint>, bucket: Bucket)
    ensures Sum(Rolled(points, bucket), TOTAL_CHECKS) == Sum(points, TOTAL_CHECKS)
    ensures Sum(Rolled(points, bucket), FAILED_CHECKS) == Sum(points, FAILED_CHECKS)
  {
    FigureIsConserved(points, bucket, TOTAL_CHECKS);
    FigureIsConserved(points, bucket, FAILED_CHECKS);
  }

  // ---- Membership and order ----

  /** Every point is in exactly one bucket, that of its week or month. */
  lemma PointInOneBucket(points: seq<DailyPoint>, bucket: Bucket, p: DailyPoint) returns (i: nat)
    requires p in points
    ensures i < |Buckets(points, bucket)|
    ensures forall j :: 0 <= j < |Buckets(points, bucket)| ==> (p in Buckets(points, bucket)[j] <==> j == i)
    ensures Rank(p.day, bucket) == Rank(Rolled(points, bucket)[i].day, bucket)
  {
    var key := BucketKey(bucket);
    i := PointInOneGroup(points, key, p);
    var days: seq<DailyPoint> := Buckets(points, bucket)[i];
    BucketsAreInhabited(points, bucket);
    FilterIsExact(points, key, Order(points, key)[i]);
    var first := days[0];
    assert first in days;
    KeysAreRanks(p.day, first.day, bucket);
    assert Rolled(points, bucket)[i] == Aggregate(days);
  }

  function RankOf(bucket: Bucket): DailyPoint -> int {
    (p: DailyPoint) => Rank(p.day, bucket)
  }

  predicate Ascending(points: seq<DailyPoint>) {
    forall x, y :: 0 <= x <= y < |points| ==> DayNumber(points[x].day) <= DayNumber(points[y].day)
  }

  lemma PointOfBucket(points: seq<DailyPoint>, bucket: Bucket, p: DailyPoint, i: nat) returns (a: nat)
    requires i < |Buckets(points, bucket)| && p in Buckets(points, bucket)[i]
    ensures a < |points| && points[a] == p && BucketKey(bucket)(points[a]) == Order(points, BucketKey(bucket))[i]
  {
    FilterIsExact(points, BucketKey(bucket), Order(points, BucketKey(bucket))[i]);
    a :| 0 <= a < |points| && points[a] == p;
  }

  /** On ascending input the buckets are in date order: all days of one come before all days of the next. */
  lemma RollUpKeepsDateOrder(points: seq<DailyPoint>, bucket: Bucket, i: nat, j: nat, p: DailyPoint, q: DailyPoint)
    requires Ascending(points) && i < j < |Buckets(points, bucket)|
    requires p in Buckets(points, bucket)[i] && q in Buckets(points, bucket)[j]
    ensures DayNumber(p.day) < DayNumber(q.day) && Rank(p.day, bucket) < Rank(q.day, bucket)
  {
    var key, rank := BucketKey(bucket), RankOf(bucket);
    var a := PointOfBucket(points, bucket, p, i);
    var b := PointOfBucket(points, bucket, q, j);
    forall x, y | 0 <= x <= y < |points| ensures rank(points[x]) <= rank(points[y]) {
      RanksFollowTime(points[x].day, points[y].day, bucket);
    }
    forall x, y | 0 <= x < |points| && 0 <= y < |points|
      ensures key(points[x]) == key(points[y]) <==> rank(points[x]) == rank(points[y])
    {
      KeysAreRanks(points[x].day, points[y].day, bucket);
    }
    GroupsInOrder(points, key, rank, i, j, a, b);
    if DayNumber(q.day) <= DayNumber(p.day) {
      RanksFollowTime(q.day, p.day, bucket);
    }
  }
}
