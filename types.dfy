/**
 * The records the goal pages hold and exchange with the backend, after the
 * typedefs in src/helper/types.js, and the two shapes of backend reply the pages
 * react to.
 */
module Types {
  import opened Dates

  /** Row identifiers (UUID strings assigned by the backend). */
  type Id = string

  datatype Option<+T> = None | Some(value: T)

  /** A goal's lifecycle state: the column values `not_started`, `in_progress`, `completed`. */
  datatype Status = NotStarted | InProgress | Completed

  /** A goal's priority: `low`, `medium`, `high`. */
  datatype Priority = Low | Medium | High

  /**
   * A goal row. `sectionId`, `targetDate` and `expectedDuration` are nullable
   * columns. The server-maintained timestamps are not modelled.
   */
  datatype Goal = Goal(
    id: Id,
    userId: Id,
    sectionId: Option<Id>,
    title: string,
    description: string,
    startDate: Date,
    targetDate: Option<Date>,
    expectedDuration: Option<int>,
    status: Status,
    priority: Priority)

  /** A section row: a named group of goals. */
  datatype Section = Section(id: Id, userId: Id, title: string, description: string)

  /** A progress entry recorded against a goal. */
  datatype GoalUpdate = GoalUpdate(id: Id, goalId: Id, userId: Id, content: string)

  /** The per-goal streak row. */
  datatype Streak = Streak(
    id: Id,
    userId: Id,
    goalId: Id,
    currentStreak: int,
    longestStreak: int,
    lastUpdated: Date)

  /** Outcome of an `update(...)` call: the row was written, or the backend reported an error. */
  datatype Write = Written | WriteFailed

  /** Outcome of an `insert(...).select()` call: the stored row's new id, or an error. */
  datatype Insert = Inserted(id: Id) | InsertFailed
}
