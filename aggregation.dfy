/** What the statistics view computes for one sport: the period window,
    the records of that sport inside it, their buckets (days, weeks or
    months) in chronological order, and the per-bucket values shown on
    the charts, all in exact tenths. */
module Aggregation {
  import opened Dates
  import opened Records

  // ---------------------------------------------------------------------
  // Rounding to one decimal

  /** qRound(n / d * 10) / 10.0 as a whole number of tenths: the tenth
      nearest to n / d, halves rounded up. */
  function RoundTenths(n: int, d: int): (r: int)
    requires d > 0
    ensures d * (2 * r - 1) <= 20 * n < d * (2 * r + 1)
  {
    var a := 20 * n + d;
    var q := a / (2 * d);
    assert a == 2 * d * q + a % (2 * d) && 0 <= a % (2 * d) < 2 * d;
    assert d * (2 * q - 1) == 2 * d * q - d;
    assert d * (2 * q + 1) == 2 * d * q + d;
    q
  }

  /** The rounding has exactly one answer: any r within half a tenth (ties upward) is RoundTenths(n, d). */
  lemma {:induction false} RoundTenthsUnique(n: int, d: int, r: int)
    requires d > 0
    requires d * (2 * r - 1) <= 20 * n < d * (2 * r + 1)
    ensures r == RoundTenths(n, d)
  {
    var q := RoundTenths(n, d);
    if r < q {
      MulMonotone(d, 2 * r + 1, 2 * q - 1);
    } else if q < r {
      MulMonotone(d, 2 * q + 1, 2 * r - 1);
    }
  }

  lemma {:induction false} MulMonotone(d: int, a: int, b: int)
    requires d > 0 && a <= b
    ensures d * a <= d * b
  {
    assert d * b == d * a + d * (b - a);
  }

  /** A whole number is shown exactly: its value in tenths is ten times it. */
  lemma {:induction false} RoundWhole(n: int)
    ensures RoundTenths(n, 1) == 10 * n
  {
    RoundTenthsUnique(n, 1, 10 * n);
  }

  // ---------------------------------------------------------------------
  // Periods and their windows

  /** The period selector: 0 = week, 1 = month, 2 = year. */
  datatype Period = Week | Month | Year

  function PeriodOfIndex(i: int): (p: Period)
    requires 0 <= i <= 2
    ensures p == Week <==> i == 0
    ensures p == Month <==> i == 1
    ensures p == Year <==> i == 2
  {
    if i == 0 then Week else if i == 1 then Month else Year
  }

  /** An inclusive range of dates [start, end]. */
  datatype Window = Window(start: Date, end: Date) {
    predicate Contains(d: Date) {
      start <= d <= end
    }
  }

  /** The window showSportDetails computes from today's date and the shift. */
  function PeriodWindow(p: Period, today: Date, shift: int): Window {
    match p
    case Week =>
      var start := today + 7 * shift - (DayOfWeek(today) - 1);
      Window(start, start + 6)
    case Month => MonthWindow(MonthIndex(FromJulianDay(today)) + shift)
    case Year => YearWindow(FromJulianDay(today).year + shift)
  }

  /** The days of the month with index i. */
  function MonthWindow(i: int): Window {
    Window(MonthStart(i), MonthStart(i + 1) - 1)
  }

  /** The days of year y. */
  function YearWindow(y: int): Window {
    Window(ToJulianDay(Civil(y, 1, 1)), ToJulianDay(Civil(y, 12, 31)))
  }

  /** Week window: Monday to Sunday of the week `shift` weeks from today's. */
  lemma {:induction false} WeekWindowShape(today: Date, shift: int)
    ensures var w := PeriodWindow(Week, today, shift);
      && DayOfWeek(w.start) == 1
      && w.end == w.start + 6
      && w.Contains(today + 7 * shift)
      && w.start == WeekStart(today + 7 * shift)
  {
    WeekStartShift(today, shift);
  }

  /** A month window runs from the first to the last day of that calendar month. */
  lemma {:induction false} MonthWindowBounds(i: int)
    ensures FromJulianDay(MonthWindow(i).start) == Civil(i / 12, i % 12 + 1, 1)
    ensures FromJulianDay(MonthWindow(i).end) == Civil(i / 12, i % 12 + 1, DaysInMonth(i / 12, i % 12 + 1))
  {
    var w := MonthWindow(i);
    assert w.start == MonthStart(i) && w.end == MonthStart(i + 1) - 1;
    MonthStartIsFirstDay(i);
    MonthLastDay(i);
  }

  /** A date is inside a month window exactly when it lies in that calendar month. */
  lemma {:induction false} MonthWindowContains(i: int, d: Date)
    ensures MonthWindow(i).Contains(d) <==> MonthIndex(FromJulianDay(d)) == i
  {
    MonthRange(d, i, i + 1);
  }

  /** A year window runs from the first of January to the 31st of December. */
  lemma {:induction false} YearWindowBounds(y: int)
    ensures FromJulianDay(YearWindow(y).start) == Civil(y, 1, 1)
    ensures FromJulianDay(YearWindow(y).end) == Civil(y, 12, 31)
  {
    FromToJulianDay(Civil(y, 1, 1));
    FromToJulianDay(Civil(y, 12, 31));
  }

  lemma {:induction false} YearStartIsMonthStart(y: int)
    ensures YearWindow(y).start == MonthStart(12 * y)
  {
    assert (12 * y) / 12 == y && (12 * y) % 12 == 0;
  }

  lemma {:induction false} YearEndIsMonthEnd(y: int)
    ensures YearWindow(y).end == MonthStart(12 * y + 12) - 1
  {
    assert (12 * y + 11) / 12 == y && (12 * y + 11) % 12 == 11;
    MonthEnd(12 * y + 11);
  }

  /** A date is inside a year window exactly when it lies in that year. */
  lemma {:induction false} YearWindowContains(y: int, d: Date)
    ensures YearWindow(y).Contains(d) <==> FromJulianDay(d).year == y
  {
    YearStartIsMonthStart(y);
    YearEndIsMonthEnd(y);
    MonthRange(d, 12 * y, 12 * y + 12);
    var c := FromJulianDay(d);
    assert 12 * y <= MonthIndex(c) < 12 * y + 12 <==> c.year == y;
  }

  /** Inside one year, a later date never has an earlier month. */
  lemma {:induction false} MonthOfYearMonotone(y: int, d1: Date, d2: Date)
    requires YearWindow(y).Contains(d1) && YearWindow(y).Contains(d2)
    requires d1 <= d2
    ensures FromJulianDay(d1).month <= FromJulianDay(d2).month
  {
    YearWindowContains(y, d1);
    YearWindowContains(y, d2);
    MonthIndexMonotone(d1, d2);
  }

  // ---------------------------------------------------------------------
  // Buckets

  /** What groups records into one bucket: in week mode the day, in month
      mode the Monday of the ISO week, in year mode the month (1..12). The
      labels the view prints ("dd.MM", "dd.MM-dd.MM", the month's short
      name) are one-to-one with these keys inside a window. */
  function BucketKey(p: Period, d: Date): int {
    match p
    case Week => d
    case Month => WeekStart(d)
    case Year => FromJulianDay(d).month
  }

  /** Inside a window, a later date never has a smaller key. */
  lemma {:induction false} BucketKeyMonotone(p: Period, today: Date, shift: int, d1: Date, d2: Date)
    requires PeriodWindow(p, today, shift).Contains(d1) && PeriodWindow(p, today, shift).Contains(d2)
    requires d1 <= d2
    ensures BucketKey(p, d1) <= BucketKey(p, d2)
  {
    match p
    case Week =>
    case Month =>
      WeekStartMonotone(d1, d2);
    case Year =>
      MonthOfYearMonotone(FromJulianDay(today).year + shift, d1, d2);
  }

  // ---------------------------------------------------------------------
  // Filtering and sorting

  /** The records whose type is exactly `sport`, in their original order. */
  function OfSport(ws: seq<Workout>, sport: string): (r: seq<Workout>)
    ensures |r| <= |ws|
    ensures forall w :: w in r <==> w in ws && w.kind == sport
  {
    if ws == [] then []
    else
      var w := ws[|ws| - 1];
      assert forall x :: x in ws <==> x in ws[..|ws| - 1] || x == w;
      OfSport(ws[..|ws| - 1], sport) + (if w.kind == sport then [w] else [])
  }

  /** The records dated inside the window, in their original order. */
  function InWindow(ws: seq<Workout>, win: Window): (r: seq<Workout>)
    ensures |r| <= |ws|
    ensures forall w :: w in r <==> w in ws && win.Contains(w.date)
  {
    if ws == [] then []
    else
      var w := ws[|ws| - 1];
      assert forall x :: x in ws <==> x in ws[..|ws| - 1] || x == w;
      InWindow(ws[..|ws| - 1], win) + (if win.Contains(w.date) then [w] else [])
  }

  /** Each record of the sport is kept as often as it occurs, so identical
      records are not merged; no record of another sport is kept. */
  lemma {:induction false} OfSportCount(ws: seq<Workout>, sport: string, w: Workout)
    ensures multiset(OfSport(ws, sport))[w] == if w.kind == sport then multiset(ws)[w] else 0
  {
    if ws != [] {
      var last := ws[|ws| - 1];
      assert ws == ws[..|ws| - 1] + [last];
      OfSportCount(ws[..|ws| - 1], sport, w);
    }
  }

  /** Each record dated inside the window is kept as often as it occurs;
      no record outside it is kept. */
  lemma {:induction false} InWindowCount(ws: seq<Workout>, win: Window, w: Workout)
    ensures multiset(InWindow(ws, win))[w] == if win.Contains(w.date) then multiset(ws)[w] else 0
  {
    if ws != [] {
      var last := ws[|ws| - 1];
      assert ws == ws[..|ws| - 1] + [last];
      InWindowCount(ws[..|ws| - 1], win, w);
    }
  }

  /** The records of one sport inside one window: what the charts are built from. */
  function PeriodRecords(ws: seq<Workout>, sport: string, win: Window): seq<Workout> {
    InWindow(OfSport(ws, sport), win)
  }

  predicate SortedByDate(s: seq<Workout>) {
    forall i, j :: 0 <= i < j < |s| ==> s[i].date <= s[j].date
  }

  function InsertByDate(s: seq<Workout>, w: Workout): (r: seq<Workout>)
    requires SortedByDate(s)
    ensures SortedByDate(r)
    ensures multiset(r) == multiset(s) + multiset{w}
    ensures forall x :: x in r ==> x in s || x == w
  {
    if s == [] then [w]
    else if w.date <= s[0].date then [w] + s
    else
      var rest := InsertByDate(s[1..], w);
      assert s == [s[0]] + s[1..];
      assert forall x :: x in rest ==> s[0].date <= x.date;
      [s[0]] + rest
  }

  /** The records ordered by date (std::sort by date; which of two records
      with the same date comes first is this function's choice, and
      SortChoiceIrrelevant shows that it does not matter). */
  function SortByDate(s: seq<Workout>): (r: seq<Workout>)
    ensures SortedByDate(r)
    ensures multiset(r) == multiset(s)
  {
    if s == [] then []
    else
      assert s == s[..|s| - 1] + [s[|s| - 1]];
      InsertByDate(SortByDate(s[..|s| - 1]), s[|s| - 1])
  }

  // ---------------------------------------------------------------------
  // Grouping

  /** The distinct keys of the records, in order of first occurrence. */
  function KeysBy(s: seq<Workout>, key: Workout -> int): (r: seq<int>)
    ensures forall i, j :: 0 <= i < j < |r| ==> r[i] != r[j]
  {
    if s == [] then []
    else
      var ks := KeysBy(s[..|s| - 1], key);
      var k := key(s[|s| - 1]);
      if k in ks then ks else ks + [k]
  }

  /** The keys listed are exactly the keys of the records. */
  lemma {:induction false} KeysByMembers(s: seq<Workout>, key: Workout -> int)
    ensures forall k :: k in KeysBy(s, key) <==> exists w :: w in s && key(w) == k
    decreases |s|
  {
    if s != [] {
      var init := s[..|s| - 1];
      KeysByMembers(init, key);
      assert forall x :: x in s <==> x in init || x == s[|s| - 1];
    }
  }

  /** The values `val` of the records with key k, in order. */
  function ValuesBy(s: seq<Workout>, key: Workout -> int, k: int, val: Workout -> int): (r: seq<int>)
    ensures |r| <= |s|
  {
    if s == [] then []
    else
      var w := s[|s| - 1];
      ValuesBy(s[..|s| - 1], key, k, val) + (if key(w) == k then [val(w)] else [])
  }

  /** A key has values exactly when it is listed. */
  lemma {:induction false} ValuesByEmpty(s: seq<Workout>, key: Workout -> int, k: int, val: Workout -> int)
    ensures ValuesBy(s, key, k, val) == [] <==> k !in KeysBy(s, key)
    decreases |s|
  {
    if s != [] {
      ValuesByEmpty(s[..|s| - 1], key, k, val);
    }
  }

  /** The bucket key of a record in a period mode. */
  function KeyOf(p: Period): Workout -> int {
    (w: Workout) => BucketKey(p, w.date)
  }

  /** Which number of a record a series is about. */
  datatype Measure = Duration | Calories

  function ValueOf(m: Measure): Workout -> int {
    match m
    case Duration => (w: Workout) => w.duration
    case Calories => (w: Workout) => w.calories
  }

  /** The bucket keys in order of first occurrence (the `categories` list). */
  function Keys(s: seq<Workout>, p: Period): seq<int> {
    KeysBy(s, KeyOf(p))
  }

  /** The values of the records with key k, in order (what durationData[k] / caloriesData[k] holds). */
  function KeyValues(s: seq<Workout>, p: Period, k: int, m: Measure): seq<int> {
    ValuesBy(s, KeyOf(p), k, ValueOf(m))
  }

  function Sum(xs: seq<int>): int {
    if xs == [] then 0 else Sum(xs[..|xs| - 1]) + xs[|xs| - 1]
  }

  /** One bucket: its key, how many records it holds and their totals. */
  datatype Bucket = Bucket(key: int, count: int, totalDuration: int, totalCalories: int)

  function BucketOf(s: seq<Workout>, p: Period, k: int): Bucket {
    Bucket(k, |KeyValues(s, p, k, Duration)|, Sum(KeyValues(s, p, k, Duration)), Sum(KeyValues(s, p, k, Calories)))
  }

  /** The buckets for the keys ks, in the order of ks. */
  function BucketsFor(s: seq<Workout>, p: Period, ks: seq<int>): (bs: seq<Bucket>)
    ensures |bs| == |ks|
    ensures forall i :: 0 <= i < |bs| ==> bs[i] == BucketOf(s, p, ks[i])
  {
    seq(|ks|, i requires 0 <= i < |ks| => BucketOf(s, p, ks[i]))
  }

  /** The buckets of a record list, in the order of their keys' first occurrence. */
  function Buckets(s: seq<Workout>, p: Period): (bs: seq<Bucket>)
    ensures |bs| == |Keys(s, p)|
    ensures forall i :: 0 <= i < |bs| ==> bs[i] == BucketOf(s, p, Keys(s, p)[i])
  {
    BucketsFor(s, p, Keys(s, p))
  }

  /** Every bucket holds at least one record. */
  lemma {:induction false} BucketsNonEmpty(s: seq<Workout>, p: Period, i: int)
    requires 0 <= i < |Buckets(s, p)|
    ensures Buckets(s, p)[i].count >= 1
  {
    ValuesByEmpty(s, KeyOf(p), Keys(s, p)[i], ValueOf(Duration));
  }

  /** How many records the buckets hold together. */
  function TotalCount(bs: seq<Bucket>): int {
    if bs == [] then 0 else TotalCount(bs[..|bs| - 1]) + bs[|bs| - 1].count
  }

  predicate Increasing(xs: seq<int>) {
    forall i, j :: 0 <= i < j < |xs| ==> xs[i] < xs[j]
  }

  /** Among the records of s, a later date never has a smaller key (true of bucket keys inside any period window). */
  predicate KeyFollowsDate(s: seq<Workout>, key: Workout -> int) {
    forall v, w :: v in s && w in s && v.date <= w.date ==> key(v) <= key(w)
  }

  // ---------------------------------------------------------------------
  // The chart series

  /** The duration or calories point of a bucket, in tenths: the raw total
      in week mode, the mean over the bucket's records otherwise. */
  function Shown(p: Period, total: int, count: int): int {
    if p == Week then RoundTenths(total, 1)
    else if count > 0 then RoundTenths(total, count)
    else 0
  }

  /** Calories per minute, in tenths; 0 when the bucket has no minutes. */
  function Intensity(b: Bucket): int {
    if b.totalDuration > 0 then RoundTenths(b.totalCalories, b.totalDuration) else 0
  }

  /** The four parallel lists showSportDetails hands to the charts; values in tenths. */
  datatype Series = Series(categories: seq<int>, durations: seq<int>, calories: seq<int>, intensities: seq<int>)

  function SeriesOf(p: Period, bs: seq<Bucket>): (r: Series)
    ensures |r.categories| == |r.durations| == |r.calories| == |r.intensities| == |bs|
  {
    Series(
      seq(|bs|, i requires 0 <= i < |bs| => bs[i].key),
      seq(|bs|, i requires 0 <= i < |bs| => Shown(p, bs[i].totalDuration, bs[i].count)),
      seq(|bs|, i requires 0 <= i < |bs| => Shown(p, bs[i].totalCalories, bs[i].count)),
      seq(|bs|, i requires 0 <= i < |bs| => Intensity(bs[i])))
  }

  /** The charts' data for one sport, period kind and window. */
  function Aggregate(ws: seq<Workout>, sport: string, p: Period, win: Window): Series {
    SeriesOf(p, Buckets(SortByDate(PeriodRecords(ws, sport, win)), p))
  }
}
