/** The add/edit workout dialog, as the state of its input fields: the
    selected entry of the type list, the custom type text, four spin
    boxes and the notes line. */
module WorkoutForm {
  import opened Records

  /** The entries of the type list, in order; the last one asks for a custom type. */
  const WorkoutTypes: seq<string> := ["Кардио", "Силовая", "Йога", "Плавание", "Велоспорт", "Кроссфит", "Другое"]

  /** The entry that stands for "a type not in the list". */
  const OtherType: string := "Другое"

  /** Index of OtherType, the last entry of the list. */
  const OtherIndex: int := 6

  // Spin box ranges
  const MinDuration: int := 1
  const MaxDuration: int := 300
  const MaxSets: int := 50
  const MaxReps: int := 100
  const MaxCalories: int := 2000

  lemma TypeListShape()
    ensures |WorkoutTypes| == 7 && OtherIndex == |WorkoutTypes| - 1
    ensures WorkoutTypes[OtherIndex] == OtherType
    ensures forall i, j :: 0 <= i < j < |WorkoutTypes| ==> WorkoutTypes[i] != WorkoutTypes[j]
  {
  }

  /** QComboBox::findText with exact, case-sensitive matching: the first
      index from i on whose entry is t, or -1. */
  function IndexOfFrom(items: seq<string>, t: string, i: nat): (r: int)
    requires i <= |items|
    ensures r == -1 || i <= r < |items|
    ensures r == -1 <==> t !in items[i..]
    ensures r >= 0 ==> items[r] == t && t !in items[i..r]
    decreases |items| - i
  {
    if i == |items| then -1
    else if items[i] == t then i
    else
      assert items[i..] == [items[i]] + items[i + 1..];
      var r := IndexOfFrom(items, t, i + 1);
      assert r >= 0 ==> items[i..r] == [items[i]] + items[i + 1..r];
      r
  }

  /** findText over the type list. */
  function FindType(t: string): (r: int)
    ensures -1 <= r < |WorkoutTypes|
    ensures r == -1 <==> t !in WorkoutTypes
    ensures r >= 0 ==> WorkoutTypes[r] == t
  {
    var items := WorkoutTypes;
    assert items[0..] == items;
    IndexOfFrom(items, t, 0)
  }

  /** QSpinBox::setValue keeps the value inside the box's range, moving a
      value outside it to the nearer bound. */
  function Bound(v: int, lo: int, hi: int): (r: int)
    requires lo <= hi
    ensures lo <= r <= hi
    ensures lo <= v <= hi ==> r == v
    ensures v < lo ==> r == lo
    ensures v > hi ==> r == hi
  {
    if v < lo then lo else if v > hi then hi else v
  }

  /** The values the dialog's fields hold. */
  datatype Form = Form(
    typeIndex: int,
    customType: string,
    duration: int,
    sets: int,
    reps: int,
    calories: int,
    notes: string)

  /** What the widgets can hold: a list entry is selected and every spin box is in range. */
  predicate ValidForm(f: Form) {
    && 0 <= f.typeIndex < |WorkoutTypes|
    && MinDuration <= f.duration <= MaxDuration
    && 0 <= f.sets <= MaxSets
    && 0 <= f.reps <= MaxReps
    && 0 <= f.calories <= MaxCalories
  }

  /** A newly built dialog: first entry selected, empty texts, every spin box at its minimum. */
  const FreshForm: Form := Form(0, "", MinDuration, 0, 0, 0, "")

  /** The form after setWorkoutData(w) on a dialog whose fields held f. */
  function Prefilled(f: Form, w: Workout): (r: Form)
    requires ValidForm(f)
    ensures ValidForm(r)
    ensures w.kind in WorkoutTypes ==> WorkoutTypes[r.typeIndex] == w.kind && r.customType == f.customType
    ensures w.kind !in WorkoutTypes ==> r.typeIndex == OtherIndex && r.customType == w.kind
    ensures MinDuration <= w.duration <= MaxDuration ==> r.duration == w.duration
    ensures w.duration < MinDuration ==> r.duration == MinDuration
    ensures w.duration > MaxDuration ==> r.duration == MaxDuration
    ensures 0 <= w.sets <= MaxSets ==> r.sets == w.sets
    ensures w.sets < 0 ==> r.sets == 0
    ensures w.sets > MaxSets ==> r.sets == MaxSets
    ensures 0 <= w.reps <= MaxReps ==> r.reps == w.reps
    ensures w.reps < 0 ==> r.reps == 0
    ensures w.reps > MaxReps ==> r.reps == MaxReps
    ensures 0 <= w.calories <= MaxCalories ==> r.calories == w.calories
    ensures w.calories < 0 ==> r.calories == 0
    ensures w.calories > MaxCalories ==> r.calories == MaxCalories
    ensures r.notes == w.notes
  {
    var i := FindType(w.kind);
    var typed := if i >= 0 then f.(typeIndex := i) else f.(typeIndex := |WorkoutTypes| - 1, customType := w.kind);
    typed.(
      duration := Bound(w.duration, MinDuration, MaxDuration),
      sets := Bound(w.sets, 0, MaxSets),
      reps := Bound(w.reps, 0, MaxReps),
      calories := Bound(w.calories, 0, MaxCalories),
      notes := w.notes)
  }

  /** The dialog object; its fields stand for the widgets' current values. */
  class WorkoutDialog {
    var typeIndex: int
    var customType: string
    var duration: int
    var sets: int
    var reps: int
    var calories: int
    var notes: string

    ghost predicate Valid()
      reads this
    {
      ValidForm(State())
    }

    function State(): Form
      reads this
    {
      Form(typeIndex, customType, duration, sets, reps, calories, notes)
    }

    constructor ()
      ensures Valid() && State() == FreshForm
    {
      typeIndex, customType := 0, "";
      duration, sets, reps, calories := MinDuration, 0, 0, 0;
      notes := "";
    }

    method SetWorkoutData(w: Workout)
      requires Valid()
      modifies this
      ensures Valid() && State() == Prefilled(old(State()), w)
    {
      var i := FindType(w.kind);
      if i >= 0 {
        typeIndex := i;
      } else {
        typeIndex := |WorkoutTypes| - 1;
        customType := w.kind;
      }
      duration := Bound(w.duration, MinDuration, MaxDuration);
      sets := Bound(w.sets, 0, MaxSets);
      reps := Bound(w.reps, 0, MaxReps);
      calories := Bound(w.calories, 0, MaxCalories);
      notes := w.notes;
    }

    /** QDialog::exec: the user edits the fields; `user` stands for what they
        enter, starting from what the fields hold. */
    method Exec(user: Form -> Form)
      requires Valid()
      requires forall f :: ValidForm(f) ==> ValidForm(user(f))
      modifies this
      ensures Valid() && State() == user(old(State()))
    {
      var f := user(State());
      typeIndex, customType := f.typeIndex, f.customType;
      duration, sets, reps, calories := f.duration, f.sets, f.reps, f.calories;
      notes := f.notes;
    }

    function GetWorkoutType(): (r: string)
      reads this
      requires Valid()
      ensures r in WorkoutTypes && r == WorkoutTypes[State().typeIndex]
    {
      WorkoutTypes[typeIndex]
    }

    function GetCustomType(): (r: string)
      reads this
      ensures r == State().customType
    {
      customType
    }

    function GetDuration(): (r: int)
      reads this
      requires Valid()
      ensures MinDuration <= r <= MaxDuration && r == State().duration
    {
      duration
    }

    function GetSets(): (r: int)
      reads this
      requires Valid()
      ensures 0 <= r <= MaxSets && r == State().sets
    {
      sets
    }

    function GetReps(): (r: int)
      reads this
      requires Valid()
      ensures 0 <= r <= MaxReps && r == State().reps
    {
      reps
    }

    function GetCalories(): (r: int)
      reads this
      requires Valid()
      ensures 0 <= r <= MaxCalories && r == State().calories
    {
      calories
    }

    function GetNotes(): (r: string)
      reads this
      ensures r == State().notes
    {
      notes
    }
  }

  /** setWorkoutData with a listed type selects that entry, so the dialog reports it back. */
  lemma {:induction false} ListedTypeSelected(f: Form, w: Workout)
    requires ValidForm(f) && w.kind in WorkoutTypes
    ensures WorkoutTypes[Prefilled(f, w).typeIndex] == w.kind
    ensures Prefilled(f, w).typeIndex == OtherIndex <==> w.kind == OtherType
  {
    TypeListShape();
  }

  /** setWorkoutData with an unlisted type selects the custom entry and keeps the type as its text. */
  lemma {:induction false} UnlistedTypeKeptAsCustom(f: Form, w: Workout)
    requires ValidForm(f) && w.kind !in WorkoutTypes
    ensures WorkoutTypes[Prefilled(f, w).typeIndex] == OtherType
    ensures Prefilled(f, w).customType == w.kind
  {
  }
}
