/** The statistics dialog: its sport list, its period state (kind, shift,
    window) and what showSportDetails puts on screen. The loops of
    showSportDetails are written out as methods proved against the
    functions of Aggregation. */
module StatsDialogs {
  import opened Dates
  import opened Records
  import opened Aggregation
  import opened AggregationFacts

  // ---------------------------------------------------------------------
  // The sport list

  /** The distinct non-empty types of the records (setupCharts's uniqueSports). */
  function UniqueSports(ws: seq<Workout>): (r: set<string>)
    ensures forall t :: t in r <==> t != "" && exists w :: w in ws && w.kind == t
  {
    set w | w in ws && w.kind != "" :: w.kind
  }

  /** `order` lists every unique sport once: the combo box filled from the
      set, in whatever order the set's hashing gives. */
  ghost predicate ListsSports(order: seq<string>, ws: seq<Workout>) {
    && (forall i, j :: 0 <= i < j < |order| ==> order[i] != order[j])
    && (forall t :: t in order <==> t in UniqueSports(ws))
  }

  // ---------------------------------------------------------------------
  // What the dialog shows

  /** The content of the charts area. */
  datatype View =
    | NoWorkouts            // "no data for statistics": the record list is empty
    | NoValidData           // "no valid data": every record has an empty type
    | NoSportData           // "no data to show": no record of the selected sport
    | Charts(sport: string, period: Period, window: Window, series: Series)
                            // the period label and, when there are buckets, the three charts

  /** The charts area together with currentStartDate / currentEndDate. */
  datatype Screen = Screen(view: View, window: Window)

  /** What showSportDetails(index) leaves on a screen that showed `before`. */
  function Details(ws: seq<Workout>, sports: seq<string>, index: int, p: Period, shift: int, today: Date, before: Screen): Screen {
    if index < 0 || index >= |sports| then before
    else if OfSport(ws, sports[index]) == [] then before.(view := NoSportData)
    else
      var win := PeriodWindow(p, today, shift);
      Screen(Charts(sports[index], p, win, Aggregate(ws, sports[index], p, win)), win)
  }

  /** For a listed sport, showSportDetails either reports that the sport has
      no records, keeping the old window, or shows the period window of
      today, the shift and the kind, stores that window, and charts the
      sport's buckets in chronological order. */
  lemma {:induction false} DetailsShowPeriod(ws: seq<Workout>, sports: seq<string>, index: int, p: Period, shift: int, today: Date, before: Screen)
    requires 0 <= index < |sports|
    ensures var after := Details(ws, sports, index, p, shift, today, before);
      && (OfSport(ws, sports[index]) == [] ==> after == Screen(NoSportData, before.window))
      && (OfSport(ws, sports[index]) != [] ==>
            && after.view.Charts?
            && after.view.sport == sports[index]
            && after.window == after.view.window == PeriodWindow(p, today, shift)
            && Increasing(after.view.series.categories))
  {
    CategoriesChronological(ws, sports[index], p, today, shift);
  }

  // ---------------------------------------------------------------------
  // The loops of showSportDetails

  /** The loop that collects sportWorkouts. */
  method FilterSport(ws: seq<Workout>, sport: string) returns (r: seq<Workout>)
    ensures r == OfSport(ws, sport)
  {
    r := [];
    var i := 0;
    while i < |ws|
      invariant 0 <= i <= |ws|
      invariant r == OfSport(ws[..i], sport)
    {
      assert ws[..i + 1][..i] == ws[..i];
      if ws[i].kind == sport {
        r := r + [ws[i]];
      }
      i := i + 1;
    }
    assert ws[..|ws|] == ws;
  }

  /** The loop that collects periodWorkouts. */
  method FilterWindow(ws: seq<Workout>, win: Window) returns (r: seq<Workout>)
    ensures r == InWindow(ws, win)
  {
    r := [];
    var i := 0;
    while i < |ws|
      invariant 0 <= i <= |ws|
      invariant r == InWindow(ws[..i], win)
    {
      assert ws[..i + 1][..i] == ws[..i];
      if win.start <= ws[i].date && ws[i].date <= win.end {
        r := r + [ws[i]];
      }
      i := i + 1;
    }
    assert ws[..|ws|] == ws;
  }

  /** The grouping loops (one per period kind, differing only in the key):
      categories in first-occurrence order and, per category, the durations
      and calories of its records in order. */
  method GroupByKey(s: seq<Workout>, key: Workout -> int)
    returns (categories: seq<int>, durationData: map<int, seq<int>>, caloriesData: map<int, seq<int>>)
    ensures categories == KeysBy(s, key)
    ensures forall k :: k in categories ==> k in durationData && durationData[k] == ValuesBy(s, key, k, ValueOf(Duration))
    ensures forall k :: k in categories ==> k in caloriesData && caloriesData[k] == ValuesBy(s, key, k, ValueOf(Calories))
  {
    categories, durationData, caloriesData := [], map[], map[];
    var i := 0;
    while i < |s|
      invariant 0 <= i <= |s|
      invariant categories == KeysBy(s[..i], key)
      invariant forall k :: k in durationData <==> k in categories
      invariant forall k :: k in caloriesData <==> k in categories
      invariant forall k :: k in durationData ==> durationData[k] == ValuesBy(s[..i], key, k, ValueOf(Duration))
      invariant forall k :: k in caloriesData ==> caloriesData[k] == ValuesBy(s[..i], key, k, ValueOf(Calories))
    {
      var w := s[i];
      var k := key(w);
      assert s[..i + 1][..i] == s[..i];
      ValuesByEmpty(s[..i], key, k, ValueOf(Duration));
      ValuesByEmpty(s[..i], key, k, ValueOf(Calories));
      if k !in categories {
        categories := categories + [k];
      }
      var ds := if k in durationData then durationData[k] else [];
      var cs := if k in caloriesData then caloriesData[k] else [];
      durationData := durationData[k := ds + [w.duration]];
      caloriesData := caloriesData[k := cs + [w.calories]];
      i := i + 1;
    }
    assert s[..|s|] == s;
  }

  /** The inner summing loops. */
  method Total(xs: seq<int>) returns (t: int)
    ensures t == Sum(xs)
  {
    t := 0;
    var j := 0;
    while j < |xs|
      invariant 0 <= j <= |xs|
      invariant t == Sum(xs[..j])
    {
      assert xs[..j + 1][..j] == xs[..j];
      t := t + xs[j];
      j := j + 1;
    }
    assert xs[..|xs|] == xs;
  }

  /** The buckets the grouping loops' output describes. */
  ghost predicate Describes(bs: seq<Bucket>, categories: seq<int>, durationData: map<int, seq<int>>, caloriesData: map<int, seq<int>>) {
    && |bs| == |categories|
    && forall i :: 0 <= i < |bs| ==>
         && categories[i] in durationData && categories[i] in caloriesData
         && bs[i] == Bucket(categories[i], |durationData[categories[i]]|, Sum(durationData[categories[i]]), Sum(caloriesData[categories[i]]))
  }

  /** What GroupByKey returns for s describes the buckets of s. */
  lemma {:induction false} GroupingDescribesBuckets(s: seq<Workout>, p: Period, categories: seq<int>, durationData: map<int, seq<int>>, caloriesData: map<int, seq<int>>)
    requires categories == Keys(s, p)
    requires forall k :: k in categories ==> k in durationData && durationData[k] == KeyValues(s, p, k, Duration)
    requires forall k :: k in categories ==> k in caloriesData && caloriesData[k] == KeyValues(s, p, k, Calories)
    ensures Describes(Buckets(s, p), categories, durationData, caloriesData)
  {
    var bs := Buckets(s, p);
    forall i | 0 <= i < |bs|
      ensures categories[i] in durationData && categories[i] in caloriesData
      ensures bs[i] == Bucket(categories[i], |durationData[categories[i]]|, Sum(durationData[categories[i]]), Sum(caloriesData[categories[i]]))
    {
      assert categories[i] in categories;
    }
  }

  /** The loop over the categories that fills durations, calories and intensities. */
  method Summarize(p: Period, categories: seq<int>, durationData: map<int, seq<int>>, caloriesData: map<int, seq<int>>, ghost bs: seq<Bucket>)
    returns (series: Series)
    requires Describes(bs, categories, durationData, caloriesData)
    ensures series == SeriesOf(p, bs)
  {
    var durations, calories, intensities := [], [], [];
    var i := 0;
    while i < |categories|
      invariant 0 <= i <= |categories|
      invariant |durations| == |calories| == |intensities| == i
      invariant forall t :: 0 <= t < i ==>
        && durations[t] == Shown(p, bs[t].totalDuration, bs[t].count)
        && calories[t] == Shown(p, bs[t].totalCalories, bs[t].count)
        && intensities[t] == Intensity(bs[t])
    {
      var category := categories[i];
      var count := |durationData[category]|;
      var totalDuration := Total(durationData[category]);
      var totalCalories := Total(caloriesData[category]);
      assert bs[i] == Bucket(category, count, totalDuration, totalCalories);
      if p == Week {
        durations := durations + [RoundTenths(totalDuration, 1)];
        calories := calories + [RoundTenths(totalCalories, 1)];
      } else {
        durations := durations + [if count > 0 then RoundTenths(totalDuration, count) else 0];
        calories := calories + [if count > 0 then RoundTenths(totalCalories, count) else 0];
      }
      var intensity := 0;
      if totalDuration > 0 {
        intensity := RoundTenths(totalCalories, totalDuration);
      }
      intensities := intensities + [intensity];
      i := i + 1;
    }
    series := Series(categories, durations, calories, intensities);
  }

  // ---------------------------------------------------------------------
  // The dialog

  class StatsDialog {
    /** The records the dialog was given. */
    var allWorkouts: seq<Workout>
    /** The entries of the sport combo box, and its current index (-1 when empty). */
    var sports: seq<string>
    var currentSport: int
    /** The period combo box and the navigation shift. */
    var currentPeriod: Period
    var currentShift: int
    /** The window last computed by showSportDetails. */
    var currentStartDate: Date
    var currentEndDate: Date
    /** The charts area. */
    var view: View

    ghost predicate Valid()
      reads this
    {
      && ListsSports(sports, allWorkouts)
      && (sports == [] ==> currentSport == -1)
      && (sports != [] ==> 0 <= currentSport < |sports|)
    }

    function CurrentScreen(): Screen
      reads this
    {
      Screen(view, Window(currentStartDate, currentEndDate))
    }

    /** StatsDialog(workouts): both dates start at today, the period is a
        week with no shift; setupUI then fills the sport list and, when it
        is not empty, shows the first sport. `order` is the order the set
        of sports comes out in. */
    constructor (workouts: seq<Workout>, order: seq<string>, today: Date)
      requires ListsSports(order, workouts)
      ensures Valid()
      ensures allWorkouts == workouts
      ensures sports == if workouts == [] then [] else order
      ensures currentPeriod == Week && currentShift == 0
      ensures workouts == [] ==> view == NoWorkouts && CurrentScreen().window == Window(today, today)
      ensures workouts != [] && order == [] ==> view == NoValidData && CurrentScreen().window == Window(today, today)
      ensures workouts != [] && order != [] ==>
        && currentSport == 0
        && CurrentScreen() == Details(workouts, order, 0, Week, 0, today, Screen(NoWorkouts, Window(today, today)))
    {
      allWorkouts := workouts;
      sports := [];
      currentSport := -1;
      currentPeriod := Week;
      currentShift := 0;
      currentStartDate, currentEndDate := today, today;
      view := NoWorkouts;
      new;
      SetupCharts(order, today);
    }

    /** updateData(workouts): replaces the records and rebuilds the sport list and the charts. */
    method UpdateData(workouts: seq<Workout>, order: seq<string>, today: Date)
      requires ListsSports(order, workouts)
      modifies this
      ensures Valid()
      ensures allWorkouts == workouts
      ensures sports == if workouts == [] then [] else order
      ensures currentPeriod == old(currentPeriod) && currentShift == old(currentShift)
      ensures workouts == [] ==> view == NoWorkouts && CurrentScreen().window == old(CurrentScreen().window)
      ensures workouts != [] && order == [] ==> view == NoValidData && CurrentScreen().window == old(CurrentScreen().window)
      ensures workouts != [] && order != [] ==>
        && currentSport == 0
        && CurrentScreen() == Details(workouts, order, 0, currentPeriod, currentShift, today, old(CurrentScreen()))
    {
      allWorkouts := workouts;
      SetupCharts(order, today);
    }

    /** setupCharts: clear the combo box; report an empty or type-less record
        list; otherwise list the sports and show the first one. */
    method SetupCharts(order: seq<string>, today: Date)
      requires ListsSports(order, allWorkouts)
      modifies this
      ensures Valid()
      ensures sports == if allWorkouts == [] then [] else order
      ensures allWorkouts == old(allWorkouts) && currentPeriod == old(currentPeriod) && currentShift == old(currentShift)
      ensures allWorkouts == [] ==> view == NoWorkouts && CurrentScreen().window == old(CurrentScreen().window)
      ensures allWorkouts != [] && order == [] ==> view == NoValidData && CurrentScreen().window == old(CurrentScreen().window)
      ensures allWorkouts != [] && order != [] ==>
        && currentSport == 0
        && CurrentScreen() == Details(allWorkouts, order, 0, currentPeriod, currentShift, today, old(CurrentScreen()))
    {
      sports, currentSport := [], -1;
      if allWorkouts == [] {
        view := NoWorkouts;
        return;
      }
      if order == [] {
        view := NoValidData;
        return;
      }
      sports, currentSport := order, 0;
      ShowSportDetails(0, today);
    }

    /** showSportDetails(index) with QDate::currentDate() passed in as today. */
    method ShowSportDetails(index: int, today: Date)
      requires Valid()
      modifies this
      ensures Valid()
      ensures allWorkouts == old(allWorkouts) && sports == old(sports) && currentSport == old(currentSport)
      ensures currentPeriod == old(currentPeriod) && currentShift == old(currentShift)
      ensures CurrentScreen() == Details(allWorkouts, sports, index, currentPeriod, currentShift, today, old(CurrentScreen()))
    {
      if index < 0 || index >= |sports| {
        return;
      }
      var sportName := sports[index];
      var sportWorkouts := FilterSport(allWorkouts, sportName);
      if sportWorkouts == [] {
        view := NoSportData;
        return;
      }
      var window := PeriodWindow(currentPeriod, today, currentShift);
      currentStartDate, currentEndDate := window.start, window.end;
      var periodWorkouts := FilterWindow(sportWorkouts, window);
      periodWorkouts := SortByDate(periodWorkouts);
      var categories, durationData, caloriesData := GroupByKey(periodWorkouts, KeyOf(currentPeriod));
      GroupingDescribesBuckets(periodWorkouts, currentPeriod, categories, durationData, caloriesData);
      var series := Summarize(currentPeriod, categories, durationData, caloriesData, Buckets(periodWorkouts, currentPeriod));
      view := Charts(sportName, currentPeriod, window, series);
    }

    /** Choosing entry `index` of the sport combo box. */
    method SelectSport(index: int, today: Date)
      requires Valid() && 0 <= index < |sports|
      modifies this
      ensures Valid()
      ensures currentSport == index
      ensures allWorkouts == old(allWorkouts) && sports == old(sports)
      ensures currentPeriod == old(currentPeriod) && currentShift == old(currentShift)
      ensures CurrentScreen() == Details(allWorkouts, sports, index, currentPeriod, currentShift, today, old(CurrentScreen()))
    {
      currentSport := index;
      ShowSportDetails(index, today);
    }

    /** shiftPeriod(direction): moves the window `direction` periods and redraws. */
    method ShiftPeriod(direction: int, today: Date)
      requires Valid()
      modifies this
      ensures Valid()
      ensures currentShift == old(currentShift) + direction && currentPeriod == old(currentPeriod)
      ensures allWorkouts == old(allWorkouts) && sports == old(sports) && currentSport == old(currentSport)
      ensures CurrentScreen() == Details(allWorkouts, sports, currentSport, currentPeriod, currentShift, today, old(CurrentScreen()))
    {
      currentShift := currentShift + direction;
      ShowSportDetails(currentSport, today);
    }

    /** updateTimePeriod(index): picks the period kind, resets the shift and redraws. */
    method UpdateTimePeriod(index: int, today: Date)
      requires Valid() && 0 <= index <= 2
      modifies this
      ensures Valid()
      ensures currentPeriod == PeriodOfIndex(index) && currentShift == 0
      ensures allWorkouts == old(allWorkouts) && sports == old(sports) && currentSport == old(currentSport)
      ensures CurrentScreen() == Details(allWorkouts, sports, currentSport, currentPeriod, 0, today, old(CurrentScreen()))
    {
      currentPeriod := PeriodOfIndex(index);
      currentShift := 0;
      ShowSportDetails(currentSport, today);
    }
  }
}
