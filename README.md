# Workout tracker core, modelled in Dafny

A Qt desktop workout tracker keeps a list of logged workouts in memory.
Each workout has a database id, a type, a duration, sets, reps, calories, notes and a date.
This project models three parts of it.

- **The main window** (`MainWindows`, main_window.dfy).
  - The week strip of seven day buttons above the list, and the previous-week and next-week buttons.
  - Picking a date in the calendar dialog. The strip keeps its selected row then, so the highlighted button can be another day of the week than the current date. The buttons and day clicks are specified from that state too.
  - The per-day filter that builds the workout cards.
  - Adding, deleting and editing a workout.
    Delete and edit find their target by the card's title and the shown date.
  - The window is a class whose fields are the workout list, the current date, the strip, its selected row and the cards on screen.
- **The add/edit dialog** (`WorkoutForm`, workout_form.dfy).
  - The fixed type list ending in "Другое", and the spin-box ranges.
  - `setWorkoutData` and the getters.
  - The dialog is a class over the values its widgets hold.
- **The statistics dialog** (`StatsDialogs`, stats_dialog.dfy).
  - The sport list, and the period state: kind, shift and window.
  - `showSportDetails`, which takes the records of one sport in the week, month or year window, sorts them by date and groups them into buckets.
    Each bucket gets its total or mean duration and calories and its intensity.
  - Its loops are methods, each proved equal to a specification function.
  - The functions live in `Aggregation` (aggregation.dfy).
  - The properties the charts promise are proved in `AggregationFacts` (aggregation_facts.dfy).

Shared definitions:

- `Dates` (dates.dfy) models QDate.
  - A date is its Julian Day Number, and the weekday runs from 1 (Monday) to 7.
  - The proleptic Gregorian calendar converts both ways, and both round trips are proved.
- `Records` (records.dfy) holds the workout record.

Outside inputs become parameters:

- Today's date, `QDate::currentDate()`.
- What the user enters in a dialog, a function from the form's values to new values.
- Whether the dialog was accepted.
- The outcome of each database call, a boolean.
- The order in which a `QSet` lists the sports.

Chart values are integers counted in tenths.
For example, 12.3 minutes is 123.

## Model

| member | source | states |
|---|---|---|
| Dates.DayOfWeek | mainwindow.cpp:329 | The weekday of a date lies in 1..7. |
| Dates.WeekStart | mainwindow.cpp:329 | The week's start is a Monday on or before the date, at most 6 days earlier. The date is that Monday plus its weekday minus one. |
| Dates.WeekStartShift | mainwindow.cpp:376-386 | Moving by n whole weeks keeps the weekday and moves the week's Monday by the same 7n days. |
| Dates.FromJulianDay | statsdialog.cpp:238-248 | The civil date of a day number is a valid calendar date that converts back to the same day number. |
| Dates.FromToJulianDay | statsdialog.cpp:238-248 | Converting a valid calendar date to a day number and back gives the same date. |
| Dates.ToJulianDayInjective | statsdialog.cpp:238-248 | Two valid calendar dates with the same day number are equal. |
| Dates.MonthStartIsFirstDay | statsdialog.cpp:239-240 | The start of month index i is day 1 of month i%12+1 of year i/12. |
| Dates.MonthLastDay | statsdialog.cpp:241 | The day before the next month starts is the last day of the month, by that month's length. |
| Dates.MonthRange | statsdialog.cpp:238-242 | A date lies between two month starts exactly when its month index lies between the two indices. |
| Aggregation.RoundTenths | statsdialog.cpp:325-336 | qRound(n/d*10) in tenths: the result r satisfies d(2r-1) <= 20n < d(2r+1), so it is the nearest tenth with ties rounded up. |
| Aggregation.RoundTenthsUnique | statsdialog.cpp:325-336 | Only one r is within half a tenth of n/d (ties upward), and it is RoundTenths(n, d). |
| Aggregation.RoundWhole | statsdialog.cpp:325-326 | A whole number is reported exactly: its value in tenths is ten times the number. |
| Aggregation.PeriodOfIndex | statsdialog.cpp:191-196 | Period index 0, 1 and 2 select week, month and year, in both directions. |
| Aggregation.PeriodWindow | statsdialog.cpp:229-250 | Definition of the week, month and year windows for today and the shift. Its properties are stated by WeekWindowShape, MonthWindowBounds, MonthWindowContains, YearWindowBounds and YearWindowContains. |
| Aggregation.WeekWindowShape | statsdialog.cpp:233-236 | The week window starts on a Monday and ends 6 days later. It holds today moved by 7*shift days and is that date's week. |
| Aggregation.MonthWindowBounds | statsdialog.cpp:238-242 | The month window runs from the 1st to the last day of its calendar month. |
| Aggregation.MonthWindowContains | statsdialog.cpp:238-242 | A date is in the month window exactly when it lies in that calendar month. |
| Aggregation.YearWindowBounds | statsdialog.cpp:244-248 | The year window runs from January 1 to December 31 of its year. |
| Aggregation.YearWindowContains | statsdialog.cpp:244-248 | A date is in the year window exactly when it lies in that year. |
| Aggregation.BucketKeyMonotone | statsdialog.cpp:271-310 | Inside any period window, a later date never gets a smaller bucket key. The keys are the day, the week's Monday and the month. |
| Aggregation.OfSport | statsdialog.cpp:213-219 | A record is kept exactly when its type equals the sport, and no record is added. |
| Aggregation.InWindow | statsdialog.cpp:255-260 | A record is kept exactly when startDate <= date <= endDate, and no record is added. |
| Aggregation.OfSportCount | statsdialog.cpp:213-219 | Each record of the sport is kept as many times as it occurs, so identical records are not merged. Records of other sports occur 0 times. |
| Aggregation.InWindowCount | statsdialog.cpp:255-260 | Each record dated inside the window is kept as many times as it occurs. Records outside it occur 0 times. |
| Aggregation.InsertByDate | statsdialog.cpp:262-265 | Inserting into a date-sorted list keeps it sorted and adds exactly that one record. |
| Aggregation.SortByDate | statsdialog.cpp:262-265 | The result is sorted by date and is a permutation of the input. |
| Aggregation.KeysBy | statsdialog.cpp:275-277 | The category list has no duplicates. |
| Aggregation.KeysByMembers | statsdialog.cpp:271-310 | A key is a category exactly when some record has that key. |
| Aggregation.ValuesByEmpty | statsdialog.cpp:278-279 | A key's value list is empty exactly when the key is not a category. |
| Aggregation.Buckets | statsdialog.cpp:312-339 | There is one bucket per category, in category order, and bucket i is built from category i. |
| Aggregation.BucketsNonEmpty | statsdialog.cpp:315 | Every bucket holds at least one record. |
| Aggregation.SeriesOf | statsdialog.cpp:312-339 | The categories, durations, calories and intensities lists all have one entry per bucket. |
| Aggregation.Aggregate | statsdialog.cpp:214-339 | Definition of what showSportDetails charts: filter by sport and window, sort by date, bucket, summarize. Its properties are stated by RecordSelection, CategoriesChronological, AnySortSameCharts, CountsAddUp, SeriesPoint and NoRecordsNoBuckets. |
| AggregationFacts.RecordSelection | statsdialog.cpp:213-265 | A record reaches the charts exactly when its type is the sport and its date lies in the window, inclusive. |
| AggregationFacts.CategoriesAreKeys | statsdialog.cpp:313 | The chart categories are the bucket keys in first-occurrence order. |
| AggregationFacts.CategoryIffRecord | statsdialog.cpp:268-310 | k is a category exactly when some charted record has key k. |
| AggregationFacts.NoRecordsNoBuckets | statsdialog.cpp:255-339 | With no record of the sport in the window, all four lists are empty. |
| AggregationFacts.ValuesByPermutation | statsdialog.cpp:262-279 | Reordering the records reorders each bucket's value list and changes nothing else. |
| AggregationFacts.SumPermutation | statsdialog.cpp:317-322 | A total does not depend on the order of its terms. |
| AggregationFacts.BucketOfPermutation | statsdialog.cpp:312-322 | A bucket's count and totals depend only on which records there are, not their order. |
| AggregationFacts.KeysIncreasing | statsdialog.cpp:262-310 | On a date-sorted list whose keys follow the dates, the categories come out strictly increasing. |
| AggregationFacts.IncreasingUnique | statsdialog.cpp:262-310 | Two strictly increasing key lists with the same members are equal. |
| AggregationFacts.CategoriesChronological | statsdialog.cpp:262-310 | Inside a period window, the chart categories are pairwise distinct and chronological. |
| AggregationFacts.SortChoiceIrrelevant | statsdialog.cpp:262-265 | Any two date-sorted orders of the same records give the same buckets. |
| AggregationFacts.AnySortSameCharts | statsdialog.cpp:262-265 | Every date-sorted order of the period's records, whatever it does with equal dates, gives the same charts. |
| AggregationFacts.CountsCoverRecords | statsdialog.cpp:312-315 | If the keys are distinct and cover every record, the bucket counts add up to the number of records. |
| AggregationFacts.CountsAddUp | statsdialog.cpp:312-315 | The bucket counts add up to the number of records in the period. |
| AggregationFacts.SeriesPoint | statsdialog.cpp:324-338 | Week mode reports each bucket's raw total. Month and year modes report the mean to the nearest tenth. Intensity is calories per minute to the nearest tenth, or 0 when there are no minutes. |
| AggregationFacts.PointRules | statsdialog.cpp:328 | Every charted bucket has count >= 1, so the mean branch always divides. |
| StatsDialogs.UniqueSports | statsdialog.cpp:163-169 | The sports are exactly the non-empty types that occur among the records. |
| StatsDialogs.Details | statsdialog.cpp:198-339 | Definition of the screen showSportDetails leaves: unchanged for an out-of-range index, "no data" for a sport without records, otherwise the charts of Aggregate with the period window. DetailsShowPeriod states its cases, and ShowSportDetails is proved to produce it. |
| StatsDialogs.DetailsShowPeriod | statsdialog.cpp:198-260 | For a listed sport there are two outcomes. With no records of it, "no data" is shown and the old window is kept. Otherwise the window is PeriodWindow(kind, today, shift), it is stored, and the categories are chronological. |
| StatsDialogs.FilterSport | statsdialog.cpp:213-219 | The sport loop's result equals OfSport. |
| StatsDialogs.FilterWindow | statsdialog.cpp:255-260 | The window loop's result equals InWindow. |
| StatsDialogs.GroupByKey | statsdialog.cpp:268-310 | The categories equal the first-occurrence key list. Each map entry holds the durations (or calories) of that key's records, in order. |
| StatsDialogs.Total | statsdialog.cpp:314-322 | The accumulation loop returns the sum of the values. |
| StatsDialogs.GroupingDescribesBuckets | statsdialog.cpp:268-315 | The grouping's output describes the buckets: their keys, counts and totals. |
| StatsDialogs.Summarize | statsdialog.cpp:312-339 | The summary loop returns exactly SeriesOf(period, buckets). |
| StatsDialogs.StatsDialog.constructor | statsdialog.cpp:21-31 | Both dates start at today, with week mode and shift 0. The sport list is filled. With no records or no typed records, the matching message is shown. Otherwise the first sport is shown. |
| StatsDialogs.StatsDialog.UpdateData | statsdialog.cpp:33-37 | The records are replaced, the sport list is rebuilt and the first sport is shown. Kind and shift are kept. |
| StatsDialogs.StatsDialog.SetupCharts | statsdialog.cpp:143-189 | With an empty record list: no sports and the "no data" message. With no typed record: no sports and the "no valid data" message. Otherwise the sports are listed and sport 0 is shown. |
| StatsDialogs.StatsDialog.ShowSportDetails | statsdialog.cpp:198-339 | An index outside the list changes nothing. Otherwise the screen and window become Details(...), and the list, kind and shift are untouched. |
| StatsDialogs.StatsDialog.SelectSport | statsdialog.cpp:119-120 | Choosing a sport redraws the screen for that sport. |
| StatsDialogs.StatsDialog.ShiftPeriod | statsdialog.cpp:130-135 | The shift grows by the direction, the kind is unchanged, and the screen is redrawn for the same sport. |
| StatsDialogs.StatsDialog.UpdateTimePeriod | statsdialog.cpp:191-196 | The kind becomes the chosen one, the shift is reset to 0, and the screen is redrawn. |
| WorkoutForm.TypeListShape | workoutdialog.cpp:109 | The type list has seven distinct entries, and "Другое" is the last. |
| WorkoutForm.IndexOfFrom | workoutdialog.cpp:202 | findText returns the first index holding the text, or -1 exactly when the text is absent. |
| WorkoutForm.FindType | workoutdialog.cpp:202 | Over the type list: -1 exactly for an unlisted type; otherwise an index of that type. |
| WorkoutForm.Bound | workoutdialog.cpp:212-215 | QSpinBox::setValue keeps a value already in range. A value below the range becomes the minimum and one above it becomes the maximum. |
| WorkoutForm.Prefilled | workoutdialog.cpp:200-217 | A listed type selects its entry. An unlisted type selects "Другое" and becomes the custom text. In-range numbers and the notes are copied. A number below its spin box's range becomes the minimum, one above it the maximum. |
| WorkoutForm.WorkoutDialog.constructor | workoutdialog.cpp:108-141 | A new dialog has the first entry selected, empty texts and every spin box at its minimum. |
| WorkoutForm.WorkoutDialog.SetWorkoutData | workoutdialog.cpp:200-217 | The fields become Prefilled(old fields, w). |
| WorkoutForm.WorkoutDialog.Exec | mainwindow.cpp:391 | What the user leaves in the dialog before it closes: the fields become the user function applied to the old fields, and stay within the widgets' ranges. |
| WorkoutForm.WorkoutDialog.GetWorkoutType | workoutdialog.cpp:172-174 | Returns the selected list entry. |
| WorkoutForm.WorkoutDialog.GetCustomType | workoutdialog.cpp:176-178 | Returns the custom type text. |
| WorkoutForm.WorkoutDialog.GetDuration | workoutdialog.cpp:180-182 | Returns the duration, which is within 1..300. |
| WorkoutForm.WorkoutDialog.GetSets | workoutdialog.cpp:184-186 | Returns the sets, which are within 0..50. |
| WorkoutForm.WorkoutDialog.GetReps | workoutdialog.cpp:188-190 | Returns the reps, which are within 0..100. |
| WorkoutForm.WorkoutDialog.GetCalories | workoutdialog.cpp:192-194 | Returns the calories, which are within 0..2000. |
| WorkoutForm.WorkoutDialog.GetNotes | workoutdialog.cpp:196-198 | Returns the notes. |
| WorkoutForm.ListedTypeSelected | workoutdialog.cpp:202-205 | After setWorkoutData with a listed type, the dialog reports that type. The entry is "Другое" only for "Другое" itself. |
| WorkoutForm.UnlistedTypeKeptAsCustom | workoutdialog.cpp:206-210 | After setWorkoutData with an unlisted type, the dialog selects "Другое" and holds the type as the custom text. |
| MainWindows.WeekStripShape | mainwindow.cpp:328-352 | The strip holds seven consecutive days from a Monday, named Пн..Вс in order. The current date is on exactly one button, the one for its weekday. A button is marked as today exactly when its date is today. |
| MainWindows.WeekStrip | mainwindow.cpp:328-352 | Definition of the seven buttons updateDays builds. WeekStripShape states their dates, names and today marks, and BuildWeekStrip is proved to build it. |
| MainWindows.DayItemAt | mainwindow.cpp:336-351 | Definition of button i: name i, the date i days after the week's Monday, marked when that date is today. Covered by WeekStripShape. |
| MainWindows.BuildWeekStrip | mainwindow.cpp:336-352 | The button loop builds exactly the week strip of the current date. |
| MainWindows.FirstWhere | mainwindow.cpp:648-663 | Returns the least index whose element satisfies the test. It returns -1 exactly when no element does. |
| MainWindows.OnDay | mainwindow.cpp:449-455 | A workout is on the day's list exactly when it is in the list and dated that day. |
| MainWindows.OnDayAppend | mainwindow.cpp:449-455 | Filtering a concatenation filters each part, so the cards keep the list's order. |
| MainWindows.OnDayCount | mainwindow.cpp:449-455 | Each workout of the day appears as many times as in the list, and no other workout appears. |
| MainWindows.ChosenTypeRoundTrip | mainwindow.cpp:627-633 | A fresh dialog filled from w resolves back to w's type. The one exception is "Другое", which resolves to the empty custom text. |
| MainWindows.ChosenType | mainwindow.cpp:393-396 | Definition of the stored type: the selected entry, or the custom text when the entry is "Другое". ChosenTypeRoundTrip states what it gives for a prefilled dialog. |
| MainWindows.RecordOf | mainwindow.cpp:630-637 | Definition of the record an accepted dialog yields, with the type from ChosenType and the given id and date. UnchangedEditKeepsRecord states that an unchanged edit rebuilds the record. |
| MainWindows.UnchangedEditKeepsRecord | mainwindow.cpp:627-638 | Accepting the edit dialog unchanged leaves a record with a non-"Другое" type and in-range numbers exactly as it was. |
| MainWindows.CardTarget | mainwindow.cpp:648-663 | When the cards show day d, the index found for card c is a record dated d. It is the record behind the first card with c's title. |
| MainWindows.MainWindow.constructor | mainwindow.cpp:18-51 | Starts on today with today's week in the strip and today's row selected. The cards show today's workouts. |
| MainWindows.MainWindow.UpdateDays | mainwindow.cpp:322-367 | The strip is rebuilt for the current week. A previously selected row in 0..6 is kept. Otherwise the row of the current date is selected. |
| MainWindows.MainWindow.DaySelected | mainwindow.cpp:369-374 | The clicked button's date becomes current and stays in the same week. Its row stays highlighted and its workouts are shown. This also holds when the highlighted row did not match the date before the click. |
| MainWindows.MainWindow.PrevWeek | mainwindow.cpp:376-380 | The date moves exactly 7 days back and keeps its weekday. The same row stays highlighted on the rebuilt strip, and the cards are not rebuilt. The highlighted row shows the date afterwards exactly when it did before. |
| MainWindows.MainWindow.NextWeek | mainwindow.cpp:382-386 | The date moves exactly 7 days forward and keeps its weekday. The same row stays highlighted on the rebuilt strip, and the cards are not rebuilt. The highlighted row shows the date afterwards exactly when it did before. |
| MainWindows.NextThenPrevWeek | mainwindow.cpp:376-386 | Next week then previous week restores the date, the selected row and the week shown. |
| MainWindows.MainWindow.PrevWeekRefreshed | mainwindow.cpp:376-380 | The corrected prevWeek: the same move and the same rebuilt strip, and then the cards show the new date. |
| MainWindows.MainWindow.NextWeekRefreshed | mainwindow.cpp:382-386 | The corrected nextWeek: the same move and the same rebuilt strip, and then the cards show the new date. |
| MainWindows.MainWindow.PickDate | mainwindow.cpp:829-836 | An accepted calendar pick makes the picked date current and shows its week and its workouts. The strip keeps the selected row, so the highlighted day is the picked date exactly when the row has its weekday. A rejected dialog changes nothing. |
| MainWindows.MainWindow.UpdateWorkoutsDisplay | mainwindow.cpp:440-455 | The cards become exactly the workouts dated the current date, in list order. Nothing else changes. |
| MainWindows.MainWindow.FindWorkoutIndex | mainwindow.cpp:648-663 | Returns the least index whose type is the card's title and whose date is the current date, or -1. |
| MainWindows.MainWindow.AddWorkout | mainwindow.cpp:388-420 | Needs an accepted dialog, an open database and a successful insert. Then the form's record is appended, with "Другое" replaced by the custom text, the current date and id -1, and the cards are rebuilt. Otherwise nothing changes. |
| MainWindows.MainWindow.DeleteWorkout | mainwindow.cpp:604-617 | With a found index and a successful database delete, exactly that element is removed, the rest keep their order, and the cards are rebuilt. Otherwise nothing changes. |
| MainWindows.MainWindow.EditWorkout | mainwindow.cpp:619-646 | When accepted, the found record's type, duration, sets, reps, calories and notes are overwritten, keeping its id and date. The change stays even when the database update fails. Only a successful update rebuilds the cards. |
| MainWindows.DeleteHitsShownDay | mainwindow.cpp:604-617 | When the cards show the current day, the record deleted is one of the cards. Exactly one copy of it leaves the list. |
| MainWindows.StaleCardDelete | mainwindow.cpp:382-386 | As written: after nextWeek, deleting the card still on screen removes a different workout, and the one shown stays. |
| MainWindows.RefreshedCardDelete | mainwindow.cpp:382-386 | Corrected: after the refreshed nextWeek, deleting the card removes the workout it shows. |

## Left out

- The database is not modelled.
  - Opening it, inserting, updating and deleting are boolean outcomes passed in.
  - Reading all records at startup is the constructor's argument.
  - The id the database assigns is never read back, as in the code.
- Widgets, layouts, style sheets, the accordion toggle, the message boxes and the chart drawing are not modelled.
  - The model stops at the lists handed to the charts.
- The calendar dialog's widgets and month formatting are left out. Its accepted date is the `picked` parameter of `PickDate`.
- The strip rebuild done by the resize handler is left out (item widths only).
- Chart categories are numbers, not text.
  - Week mode uses the day, month mode the Monday of the week, and year mode the month 1..12.
  - The source uses "dd.MM", "dd.MM-dd.MM" and locale month names.
  - Within one window these are one-to-one with the numbers, so grouping is the same.
- Chart values are integer tenths, not doubles.
  - The source divides in floating point: the means and the intensity are double divisions before qRound(x*10)/10.
  - The model replaces that with exact integer arithmetic in tenths. The two agree on realistic magnitudes, where the double is close enough to the exact quotient not to cross a rounding tie.
  - The rounding is half up. Qt 6's qRound rounds negative ties away from zero, but every spin box minimum is at least 0, so no total is negative.
- The period label text is not modelled.
- Years are numbered astronomically. Qt has no year 0, which only affects how dates before year 1 are printed.
- The range limits of QDate are not modelled.
- Integer widths are not modelled: all counts and totals are unbounded integers.
- The order in which a QSet lists the sports is a parameter (`order`), bound only to list each sport once.
- QDate::currentDate() is the `today` parameter.
- A null contextMenuWorkout is not modelled: a context-menu action always names a card on screen.
- findWorkoutIndex's search of the layout for the card is modelled by naming the card by its position.
  - The card's title label is its workout's type.
- MainWindows.MainWindow.DaySelected: the row Qt selects on click is taken to be the clicked row.
- WorkoutForm.WorkoutDialog.Exec: what the user types is a function from form values to form values, required to respect the widgets' ranges.
  - Visibility of the custom-type field is not modelled; its text is.
- Aggregation.SortByDate is a stable insertion sort, while std::sort is unstable.
  - AggregationFacts.AnySortSameCharts proves that every date-sorted order gives the same charts, so the choice does not matter.

## Findings

| source | as written | input that shows it | evidently intended | confidence | as-written member | corrected member |
|---|---|---|---|---|---|---|
| mainwindow.cpp:376-386 | prevWeek/nextWeek change m_currentDate and rebuild the strip, but keep the previous day's cards. findWorkoutIndex then matches a card's title against the new date. | Show day d with a "Кардио" workout A, where d+7 has another "Кардио" workout B. Press next week, then delete A's card: B is removed and A stays. | Rebuild the cards after moving a week, as daySelected does, so a card always targets a workout of its own day. | medium, not executed | MainWindows.StaleCardDelete | MainWindows.MainWindow.NextWeekRefreshed |
