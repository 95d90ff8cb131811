/** The workout record every part of the tracker shares. */
module Records {
  import opened Dates

  /** WorkoutData: one logged workout. `kind` is the source's `type` field; `id` is the database key, or
      UnsavedId for a record that never received one. */
  datatype Workout = Workout(
    id: int,
    kind: string,
    duration: int,
    sets: int,
    reps: int,
    calories: int,
    notes: string,
    date: Date)

  /** The default id of a WorkoutData that has not been read back from the database. */
  const UnsavedId: int := -1
}
