/** The main window's in-memory state: the workouts loaded from the
    database, the day being shown, the week strip of day buttons above
    the list, and the workout cards built for that day. */
module MainWindows {
  import opened Dates
  import opened Records
  import opened WorkoutForm

  /** Short Russian weekday names, Monday first. */
  const DayNames: seq<string> := ["Пн", "Вт", "Ср", "Чт", "Пт", "Сб", "Вс"]

  /** One button of the week strip: the weekday name on the first line of
      its label, the date it selects (its day of the month,
      FromJulianDay(date).day, is the label's second line), and the "today" mark. */
  datatype DayItem = DayItem(name: string, date: Date, isToday: bool)

  /** The i-th button of the strip for the week holding `current`. */
  function DayItemAt(current: Date, today: Date, i: int): DayItem
    requires 0 <= i < 7
  {
    var date := WeekStart(current) + i;
    DayItem(DayNames[i], date, date == today)
  }

  /** The seven buttons updateDays builds for the week of `current`. */
  function WeekStrip(current: Date, today: Date): (r: seq<DayItem>)
    ensures |r| == 7
  {
    seq(7, i requires 0 <= i < 7 => DayItemAt(current, today, i))
  }

  /** Every day of the Monday-started week lies in that week. */
  lemma {:induction false} SameWeek(monday: Date, i: int)
    requires DayOfWeek(monday) == 1 && 0 <= i < 7
    ensures DayOfWeek(monday + i) == i + 1
    ensures WeekStart(monday + i) == monday
  {
    var q := monday / 7;
    assert monday == 7 * q;
    assert (monday + i) / 7 == q && (monday + i) % 7 == i;
  }

  /** The strip: seven consecutive days from a Monday, labelled Пн..Вс in
      order, the current date on exactly one of them and the today mark on
      the button whose date is today. */
  lemma {:induction false} WeekStripShape(current: Date, today: Date)
    ensures DayOfWeek(WeekStrip(current, today)[0].date) == 1
    ensures forall i :: 1 <= i < 7 ==> WeekStrip(current, today)[i].date == WeekStrip(current, today)[i - 1].date + 1
    ensures forall i :: 0 <= i < 7 ==>
      && WeekStrip(current, today)[i].name == DayNames[i]
      && DayOfWeek(WeekStrip(current, today)[i].date) == i + 1
      && (WeekStrip(current, today)[i].isToday <==> WeekStrip(current, today)[i].date == today)
    ensures forall i :: 0 <= i < 7 ==> (WeekStrip(current, today)[i].date == current <==> i == DayOfWeek(current) - 1)
  {
    var m := WeekStart(current);
    forall i | 0 <= i < 7
      ensures DayOfWeek(WeekStrip(current, today)[i].date) == i + 1
    {
      SameWeek(m, i);
    }
  }

  /** The loop of updateDays that adds the seven buttons. */
  method BuildWeekStrip(current: Date, today: Date) returns (items: seq<DayItem>)
    ensures items == WeekStrip(current, today)
  {
    var weekStart := current - (DayOfWeek(current) - 1);
    items := [];
    for i := 0 to 7
      invariant |items| == i
      invariant forall k :: 0 <= k < i ==> items[k] == DayItemAt(current, today, k)
    {
      var date := weekStart + i;
      items := items + [DayItem(DayNames[i], date, date == today)];
    }
  }

  /** Index of the first element satisfying p, or -1 when there is none. */
  function FirstWhere<T>(s: seq<T>, p: T -> bool): (r: int)
    ensures -1 <= r < |s|
    ensures r == -1 <==> forall j :: 0 <= j < |s| ==> !p(s[j])
    ensures r >= 0 ==> p(s[r]) && forall j :: 0 <= j < r ==> !p(s[j])
  {
    if s == [] then -1
    else if p(s[0]) then 0
    else
      var r := FirstWhere(s[1..], p);
      if r < 0 then -1 else r + 1
  }

  /** What findWorkoutIndex looks for: a record of the card's type on the shown date. */
  function Matching(title: string, d: Date): Workout -> bool {
    (w: Workout) => w.kind == title && w.date == d
  }

  /** What findWorkoutIndex returns for a card titled `title` while `d` is shown. */
  function FirstMatch(ws: seq<Workout>, title: string, d: Date): int {
    FirstWhere(ws, Matching(title, d))
  }

  /** Index of the first card titled `title`. */
  function FirstTitled(cards: seq<Workout>, title: string): int {
    FirstWhere(cards, (w: Workout) => w.kind == title)
  }

  /** The workouts dated d, in their order in ws (the filter of updateWorkoutsDisplay). */
  function OnDay(ws: seq<Workout>, d: Date): (r: seq<Workout>)
    ensures |r| <= |ws|
    ensures forall w :: w in r <==> w in ws && w.date == d
  {
    if ws == [] then []
    else
      var w := ws[|ws| - 1];
      assert forall x :: x in ws <==> x in ws[..|ws| - 1] || x == w;
      OnDay(ws[..|ws| - 1], d) + (if w.date == d then [w] else [])
  }

  /** Filtering a concatenation filters each part: the cards keep the list's order. */
  lemma {:induction false} OnDayAppend(a: seq<Workout>, b: seq<Workout>, d: Date)
    ensures OnDay(a + b, d) == OnDay(a, d) + OnDay(b, d)
    decreases |b|
  {
    if b == [] {
      assert a + b == a;
    } else {
      var w := b[|b| - 1];
      assert (a + b)[..|a + b| - 1] == a + b[..|b| - 1];
      OnDayAppend(a, b[..|b| - 1], d);
    }
  }

  /** Each workout of day d is shown as often as it occurs in the list, and no other. */
  lemma {:induction false} OnDayCount(ws: seq<Workout>, d: Date, w: Workout)
    ensures multiset(OnDay(ws, d))[w] == if w.date == d then multiset(ws)[w] else 0
  {
    if ws != [] {
      var last := ws[|ws| - 1];
      assert ws == ws[..|ws| - 1] + [last];
      OnDayCount(ws[..|ws| - 1], d, w);
    }
  }

  /** The type the caller stores: the selected entry, or the custom text
      when the selected entry is "Другое". */
  function ChosenType(f: Form): string
    requires ValidForm(f)
  {
    var t := WorkoutTypes[f.typeIndex];
    if t == OtherType then f.customType else t
  }

  /** The record built from an accepted dialog, with the given id and date. */
  function RecordOf(f: Form, id: int, date: Date): Workout
    requires ValidForm(f)
  {
    Workout(id, ChosenType(f), f.duration, f.sets, f.reps, f.calories, f.notes, date)
  }

  lemma FreshFormValid()
    ensures ValidForm(FreshForm)
  {
    TypeListShape();
  }

  /** Opening a fresh dialog on w and resolving its type gives back w's
      type, except "Другое" itself, which comes back as the empty custom text. */
  lemma {:induction false} ChosenTypeRoundTrip(w: Workout)
    ensures ValidForm(FreshForm)
    ensures ChosenType(Prefilled(FreshForm, w)) == if w.kind == OtherType then "" else w.kind
  {
    FreshFormValid();
    TypeListShape();
    if w.kind in WorkoutTypes {
      ListedTypeSelected(FreshForm, w);
    } else {
      UnlistedTypeKeptAsCustom(FreshForm, w);
    }
  }

  /** Accepting the edit dialog unchanged rewrites a record with itself when
      its type is not "Другое" and its numbers lie within the spin boxes' ranges. */
  lemma {:induction false} UnchangedEditKeepsRecord(w: Workout)
    requires w.kind != OtherType
    requires MinDuration <= w.duration <= MaxDuration && 0 <= w.sets <= MaxSets
    requires 0 <= w.reps <= MaxReps && 0 <= w.calories <= MaxCalories
    ensures ValidForm(FreshForm)
    ensures RecordOf(Prefilled(FreshForm, w), w.id, w.date) == w
  {
    ChosenTypeRoundTrip(w);
  }

  /** Around a record of day d, the day's cards split into those before it,
      its own card, and those after it. */
  lemma {:induction false} OnDayAround(ws: seq<Workout>, d: Date, k: int)
    requires 0 <= k < |ws| && ws[k].date == d
    ensures OnDay(ws, d) == OnDay(ws[..k], d) + [ws[k]] + OnDay(ws[k + 1..], d)
  {
    assert ws == ws[..k] + [ws[k]] + ws[k + 1..];
    OnDayAppend(ws[..k] + [ws[k]], ws[k + 1..], d);
    OnDayAppend(ws[..k], [ws[k]], d);
    assert OnDay([ws[k]], d) == [ws[k]] by {
      assert [ws[k]][..0] == [];
    }
  }

  /** A title first occurs right after a prefix that lacks it. */
  lemma {:induction false} FirstTitledAfter(before: seq<Workout>, x: Workout, after: seq<Workout>)
    requires forall j :: 0 <= j < |before| ==> before[j].kind != x.kind
    ensures FirstTitled(before + [x] + after, x.kind) == |before|
  {
    var s := before + [x] + after;
    assert s[|before|] == x;
    assert forall j :: 0 <= j < |before| ==> s[j] == before[j];
  }

  /** Under a card list that shows day d, card c points, through
      findWorkoutIndex, at the record behind the first card with c's title. */
  lemma {:induction false} CardTarget(ws: seq<Workout>, d: Date, c: int)
    requires 0 <= c < |OnDay(ws, d)|
    ensures var k := FirstMatch(ws, OnDay(ws, d)[c].kind, d);
      && 0 <= k < |ws|
      && ws[k].date == d
      && ws[k] == OnDay(ws, d)[FirstTitled(OnDay(ws, d), OnDay(ws, d)[c].kind)]
  {
    var cards := OnDay(ws, d);
    var t := cards[c].kind;
    assert cards[c] in ws;
    assert Matching(t, d)(cards[c]);
    var k := FirstMatch(ws, t, d);
    OnDayAround(ws, d, k);
    var before := OnDay(ws[..k], d);
    forall j | 0 <= j < |before|
      ensures before[j].kind != t
    {
      assert before[j] in ws[..k];
    }
    FirstTitledAfter(before, ws[k], OnDay(ws[k + 1..], d));
  }

  /** The main window. `cards` is what updateWorkoutsDisplay last built;
      a context-menu action names a card by its position in it. */
  class MainWindow {
    var workouts: seq<Workout>
    var currentDate: Date
    var days: seq<DayItem>
    var currentRow: int
    var cards: seq<Workout>

    /** The strip shows the week of the current date and one of its
        buttons is selected. After a date is picked in the calendar the
        selected button may be another day of that week. */
    ghost predicate Strip()
      reads this
    {
      && |days| == 7
      && (forall i :: 0 <= i < 7 ==> days[i].date == WeekStart(currentDate) + i)
      && 0 <= currentRow < 7
    }

    /** The strip shows the week of the current date and highlights it. */
    ghost predicate Valid()
      reads this
    {
      Strip() && days[currentRow].date == currentDate
    }

    /** The cards show exactly the current date's workouts. */
    ghost predicate Displayed()
      reads this
    {
      cards == OnDay(workouts, currentDate)
    }

    /** Startup with the workouts read from the database, on today's date. */
    constructor (loaded: seq<Workout>, today: Date)
      ensures Valid() && Displayed()
      ensures workouts == loaded && currentDate == today
      ensures days == WeekStrip(today, today) && currentRow == DayOfWeek(today) - 1
    {
      workouts := loaded;
      currentDate := today;
      days := [];
      currentRow := -1;
      cards := [];
      new;
      UpdateDays(today);
      UpdateWorkoutsDisplay();
      WeekStripShape(today, today);
    }

    /** Rebuilds the strip for the week of currentDate. A previously selected
        row 0..6 stays selected; otherwise the row of currentDate is selected. */
    method UpdateDays(today: Date)
      modifies this
      ensures days == WeekStrip(currentDate, today)
      ensures 0 <= old(currentRow) < 7 ==> currentRow == old(currentRow)
      ensures !(0 <= old(currentRow) < 7) ==> currentRow == DayOfWeek(currentDate) - 1 && days[currentRow].date == currentDate
      ensures workouts == old(workouts) && currentDate == old(currentDate) && cards == old(cards)
    {
      var row := currentRow;
      var items := BuildWeekStrip(currentDate, today);
      if !(0 <= row < |items|) {
        WeekStripShape(currentDate, today);
        row := -1;
        var i := 0;
        while i < |items| && row < 0
          invariant 0 <= i <= |items|
          invariant row < 0 ==> forall k :: 0 <= k < i ==> items[k].date != currentDate
          invariant row >= 0 ==> row < |items| && items[row].date == currentDate
        {
          if items[i].date == currentDate {
            row := i;
          }
          i := i + 1;
        }
        assert items[DayOfWeek(currentDate) - 1].date == currentDate;
        assert row == DayOfWeek(currentDate) - 1;
      }
      days := items;
      currentRow := row;
    }

    /** Clicking a day button: that day becomes current and its cards are shown. */
    method DaySelected(row: int, today: Date)
      requires Strip() && 0 <= row < 7
      modifies this
      ensures currentDate == old(days[row].date) && currentRow == row
      ensures days == WeekStrip(currentDate, today)
      ensures WeekStart(currentDate) == WeekStart(old(currentDate))
      ensures workouts == old(workouts)
      ensures Valid() && Displayed()
    {
      SameWeek(WeekStart(currentDate), row);
      currentRow := row;
      currentDate := days[row].date;
      UpdateDays(today);
      UpdateWorkoutsDisplay();
      WeekStripShape(currentDate, today);
    }

    /** The previous-week button: one week back, strip rebuilt, cards left as they were. */
    method PrevWeek(today: Date)
      requires Strip()
      modifies this
      ensures currentDate == old(currentDate) - 7 && DayOfWeek(currentDate) == DayOfWeek(old(currentDate))
      ensures days == WeekStrip(currentDate, today) && currentRow == old(currentRow)
      ensures workouts == old(workouts) && cards == old(cards)
      ensures Strip()
      ensures Valid() <==> old(Valid())
    {
      WeekStartShift(currentDate, -1);
      currentDate := currentDate - 7;
      UpdateDays(today);
      WeekStripShape(currentDate, today);
    }

    /** The next-week button: one week on, strip rebuilt, cards left as they were. */
    method NextWeek(today: Date)
      requires Strip()
      modifies this
      ensures currentDate == old(currentDate) + 7 && DayOfWeek(currentDate) == DayOfWeek(old(currentDate))
      ensures days == WeekStrip(currentDate, today) && currentRow == old(currentRow)
      ensures workouts == old(workouts) && cards == old(cards)
      ensures Strip()
      ensures Valid() <==> old(Valid())
    {
      WeekStartShift(currentDate, 1);
      currentDate := currentDate + 7;
      UpdateDays(today);
      WeekStripShape(currentDate, today);
    }

    /** prevWeek followed by the corrected card refresh. */
    method PrevWeekRefreshed(today: Date)
      requires Strip()
      modifies this
      ensures currentDate == old(currentDate) - 7 && currentRow == old(currentRow)
      ensures days == WeekStrip(currentDate, today) && workouts == old(workouts)
      ensures Strip() && Displayed()
      ensures Valid() <==> old(Valid())
    {
      PrevWeek(today);
      UpdateWorkoutsDisplay();
    }

    /** nextWeek followed by the corrected card refresh. */
    method NextWeekRefreshed(today: Date)
      requires Strip()
      modifies this
      ensures currentDate == old(currentDate) + 7 && currentRow == old(currentRow)
      ensures days == WeekStrip(currentDate, today) && workouts == old(workouts)
      ensures Strip() && Displayed()
      ensures Valid() <==> old(Valid())
    {
      NextWeek(today);
      UpdateWorkoutsDisplay();
    }

    /** Accepting a date in the calendar dialog: the picked date becomes
        current, the strip shows its week and its cards are shown. The
        strip keeps the selected row, so the highlighted day is the picked
        date exactly when it has the weekday of that row. */
    method PickDate(picked: Date, accepted: bool, today: Date)
      requires Strip()
      modifies this
      ensures accepted ==> currentDate == picked && days == WeekStrip(picked, today) && Displayed()
      ensures accepted ==> (Valid() <==> currentRow == DayOfWeek(picked) - 1)
      ensures !accepted ==> currentDate == old(currentDate) && days == old(days) && cards == old(cards)
      ensures currentRow == old(currentRow) && workouts == old(workouts)
      ensures Strip()
    {
      if accepted {
        currentDate := picked;
        UpdateDays(today);
        UpdateWorkoutsDisplay();
        WeekStripShape(currentDate, today);
      }
    }

    /** Rebuilds the cards from the workouts dated currentDate. */
    method UpdateWorkoutsDisplay()
      modifies this
      ensures cards == OnDay(workouts, currentDate)
      ensures workouts == old(workouts) && currentDate == old(currentDate)
      ensures days == old(days) && currentRow == old(currentRow)
    {
      var todayWorkouts := [];
      var i := 0;
      while i < |workouts|
        invariant 0 <= i <= |workouts|
        invariant todayWorkouts == OnDay(workouts[..i], currentDate)
      {
        assert workouts[..i + 1][..i] == workouts[..i];
        if workouts[i].date == currentDate {
          todayWorkouts := todayWorkouts + [workouts[i]];
        }
        i := i + 1;
      }
      assert workouts[..|workouts|] == workouts;
      cards := todayWorkouts;
    }

    /** The index of the first workout whose type is card c's title and whose
        date is the shown date, or -1. */
    method FindWorkoutIndex(c: int) returns (index: int)
      requires 0 <= c < |cards|
      ensures index == FirstMatch(workouts, cards[c].kind, currentDate)
      ensures -1 <= index < |workouts|
      ensures index >= 0 ==> workouts[index].kind == cards[c].kind && workouts[index].date == currentDate
    {
      var title := cards[c].kind;
      var j := 0;
      while j < |workouts|
        invariant 0 <= j <= |workouts|
        invariant forall k :: 0 <= k < j ==> !Matching(title, currentDate)(workouts[k])
      {
        if workouts[j].kind == title && workouts[j].date == currentDate {
          return j;
        }
        j := j + 1;
      }
      return -1;
    }

    /** The add button: the dialog's record, stamped with the shown date and the
        default id, is appended when the dialog is accepted, the database opens
        and the database insert succeeds; the cards are then rebuilt. */
    method AddWorkout(user: Form -> Form, accepted: bool, connected: bool, added: bool)
      requires forall f :: ValidForm(f) ==> ValidForm(user(f))
      modifies this
      ensures ValidForm(user(FreshForm))
      ensures accepted && connected && added ==>
        && workouts == old(workouts) + [RecordOf(user(FreshForm), UnsavedId, old(currentDate))]
        && cards == OnDay(workouts, currentDate)
      ensures !(accepted && connected && added) ==> workouts == old(workouts) && cards == old(cards)
      ensures currentDate == old(currentDate) && days == old(days) && currentRow == old(currentRow)
    {
      FreshFormValid();
      var dialog := new WorkoutDialog();
      dialog.Exec(user);
      if accepted {
        var kind := dialog.GetWorkoutType();
        if kind == OtherType {
          kind := dialog.GetCustomType();
        }
        var workout := Workout(UnsavedId, kind, dialog.GetDuration(), dialog.GetSets(),
          dialog.GetReps(), dialog.GetCalories(), dialog.GetNotes(), currentDate);
        if !connected {
          return;
        }
        if added {
          workouts := workouts + [workout];
          UpdateWorkoutsDisplay();
        }
      }
    }

    /** The context menu's delete on card c: the workout findWorkoutIndex picks
        is removed, the others keeping their order, when one is found and the
        database delete succeeds; the cards are then rebuilt. */
    method DeleteWorkout(c: int, deleted: bool)
      requires 0 <= c < |cards|
      modifies this
      ensures var i := FirstMatch(old(workouts), old(cards[c].kind), old(currentDate));
        if i >= 0 && deleted then
          && workouts == old(workouts[..i]) + old(workouts[i + 1..])
          && cards == OnDay(workouts, currentDate)
        else
          workouts == old(workouts) && cards == old(cards)
      ensures currentDate == old(currentDate) && days == old(days) && currentRow == old(currentRow)
    {
      var index := FindWorkoutIndex(c);
      if index >= 0 {
        if deleted {
          workouts := workouts[..index] + workouts[index + 1..];
          UpdateWorkoutsDisplay();
        }
      }
    }

    /** The context menu's edit on card c: the workout findWorkoutIndex picks is
        opened in a fresh dialog; on acceptance its type (resolved as on add),
        duration, sets, reps, calories and notes are overwritten in place, id and
        date kept. The change stays in memory whether or not the database update
        succeeds; only a successful update rebuilds the cards. */
    method EditWorkout(c: int, user: Form -> Form, accepted: bool, updated: bool)
      requires 0 <= c < |cards|
      requires forall f :: ValidForm(f) ==> ValidForm(user(f))
      modifies this
      ensures var i := FirstMatch(old(workouts), old(cards[c].kind), old(currentDate));
        && (i >= 0 && accepted ==>
          && ValidForm(user(Prefilled(FreshForm, old(workouts[i]))))
          && workouts == old(workouts)[i := RecordOf(user(Prefilled(FreshForm, old(workouts[i]))), old(workouts[i].id), old(workouts[i].date))])
        && (!(i >= 0 && accepted) ==> workouts == old(workouts))
        && (i >= 0 && accepted && updated ==> cards == OnDay(workouts, currentDate))
        && (!(i >= 0 && accepted && updated) ==> cards == old(cards))
      ensures currentDate == old(currentDate) && days == old(days) && currentRow == old(currentRow)
    {
      var index := FindWorkoutIndex(c);
      if index < 0 {
        return;
      }
      FreshFormValid();
      var dialog := new WorkoutDialog();
      dialog.SetWorkoutData(workouts[index]);
      dialog.Exec(user);
      if accepted {
        var kind := dialog.GetWorkoutType();
        if kind == OtherType {
          kind := dialog.GetCustomType();
        }
        var w := workouts[index];
        workouts := workouts[index := Workout(w.id, kind, dialog.GetDuration(), dialog.GetSets(),
          dialog.GetReps(), dialog.GetCalories(), dialog.GetNotes(), w.date)];
        if updated {
          UpdateWorkoutsDisplay();
        }
      }
    }
  }

  /** nextWeek then prevWeek returns to the same date with the same row
      selected and the same week on the strip. */
  method NextThenPrevWeek(window: MainWindow, today: Date)
    requires window.Strip()
    modifies window
    ensures window.currentDate == old(window.currentDate) && window.currentRow == old(window.currentRow)
    ensures window.days == WeekStrip(old(window.currentDate), today)
    ensures window.workouts == old(window.workouts) && window.cards == old(window.cards)
    ensures window.Strip() && (window.Valid() <==> old(window.Valid()))
  {
    window.NextWeek(today);
    window.PrevWeek(today);
  }

  /** nextWeek as written leaves the previous day's cards on screen. Day d
      shows one "Кардио" workout, and the day a week later holds another.
      After nextWeek the card still shows the first one, yet deleting that
      card removes the second: the workout on screen is the one that stays. */
  method StaleCardDelete(d: Date, today: Date) returns (shown: seq<Workout>, left: seq<Workout>)
    ensures shown == [Workout(1, "Кардио", 30, 0, 0, 300, "", d)]
    ensures left == shown
  {
    var a := Workout(1, "Кардио", 30, 0, 0, 300, "", d);
    var b := Workout(2, "Кардио", 45, 0, 0, 400, "", d + 7);
    var window := new MainWindow([a, b], d);
    assert [a, b][..1] == [a];
    assert OnDay([a, b], d) == [a];
    window.NextWeek(today);
    shown := window.cards;
    assert !Matching(a.kind, d + 7)(a) && Matching(a.kind, d + 7)(b);
    window.DeleteWorkout(0, true);
    left := window.workouts;
  }

  /** The same steps with the refreshed nextWeek: the card shows the
      second workout, and deleting it removes that very workout. */
  method RefreshedCardDelete(d: Date, today: Date) returns (shown: seq<Workout>, left: seq<Workout>)
    ensures shown == [Workout(2, "Кардио", 45, 0, 0, 400, "", d + 7)]
    ensures left == [Workout(1, "Кардио", 30, 0, 0, 300, "", d)]
  {
    var a := Workout(1, "Кардио", 30, 0, 0, 300, "", d);
    var b := Workout(2, "Кардио", 45, 0, 0, 400, "", d + 7);
    var window := new MainWindow([a, b], d);
    window.NextWeekRefreshed(today);
    assert [a, b][..1] == [a];
    assert OnDay([a, b], d + 7) == [b];
    shown := window.cards;
    assert !Matching(a.kind, d + 7)(a) && Matching(a.kind, d + 7)(b);
    window.DeleteWorkout(0, true);
    left := window.workouts;
  }

  /** On a freshly displayed day, deleting card c removes the record behind
      the first card with c's title, dated that day; nothing else goes. */
  lemma {:induction false} DeleteHitsShownDay(ws: seq<Workout>, d: Date, c: int)
    requires 0 <= c < |OnDay(ws, d)|
    ensures var k := FirstMatch(ws, OnDay(ws, d)[c].kind, d);
      && 0 <= k < |ws|
      && ws[k] in OnDay(ws, d)
      && multiset(ws) == multiset(ws[..k] + ws[k + 1..]) + multiset{ws[k]}
  {
    CardTarget(ws, d, c);
    RemoveAtMultiset(ws, FirstMatch(ws, OnDay(ws, d)[c].kind, d));
  }

  /** Removing the element at k takes exactly one copy of it out of the multiset. */
  lemma {:induction false} RemoveAtMultiset<T>(s: seq<T>, k: int)
    requires 0 <= k < |s|
    ensures multiset(s) == multiset(s[..k] + s[k + 1..]) + multiset{s[k]}
  {
    assert s == s[..k] + [s[k]] + s[k + 1..];
  }
}
