/**
 * Goal creation on the goal list page: the new-goal form, how `handleGoalSubmit`
 * reconciles the duration with the target date, and the goal row it inserts.
 *
 * The form offers two ways to fix a goal's length: a number of days from the
 * start date, or an end date. Exactly one input is shown at a time, and switching
 * between the two clears the other one.
 */
module Reconcile {
  import opened Dates
  import opened Types

  /** The form's `duration_type` radio: `days` or `end_date`. */
  datatype DurationType = ByDays | ByEndDate

  /**
   * The `newGoal` form state. An empty text input is `None`; a filled duration
   * input holds the integer `parseInt` reads from it.
   */
  datatype GoalForm = GoalForm(
    title: string,
    description: string,
    startDate: Date,
    targetDate: Option<Date>,
    expectedDuration: Option<int>,
    durationType: DurationType,
    priority: Priority,
    sectionId: Option<Id>)

  /** The form as first shown and as reset after a goal is created: starting today, by days, medium priority. */
  function EmptyForm(today: Date): (f: GoalForm)
    ensures f.durationType == ByDays && f.targetDate.None? && f.expectedDuration.None?
    ensures f.startDate == today && f.priority == Medium && f.sectionId.None?
    ensures Exclusive(f)
  {
    GoalForm("", "", today, None, None, ByDays, Medium, None)
  }

  /**
   * Only the selected mode's input can be filled: the other input is hidden and
   * was cleared when the mode was switched.
   */
  function Exclusive(f: GoalForm): (only: bool)
    ensures only ==> f.targetDate.None? || f.expectedDuration.None?
    ensures f.targetDate.None? && f.expectedDuration.None? ==> only
  {
    && (f.durationType == ByDays ==> f.targetDate.None?)
    && (f.durationType == ByEndDate ==> f.expectedDuration.None?)
  }

  /** The target date and expected duration written with a new goal. */
  datatype Schedule = Schedule(targetDate: Option<Date>, expectedDuration: Option<int>)

  /**
   * The reconciliation of `handleGoalSubmit`: in days mode with a duration `n`,
   * the target is `n` days after the start; in end-date mode with a target, the
   * duration is the whole number of days between start and target, in either
   * order; otherwise the duration is null and the target is the form's own.
   */
  function ScheduleOf(f: GoalForm): (s: Schedule)
    ensures s.expectedDuration.Some? <==>
              (f.durationType == ByDays && f.expectedDuration.Some?)
              || (f.durationType == ByEndDate && f.targetDate.Some?)
    ensures s.expectedDuration.Some? ==> s.targetDate.Some?
    ensures f.durationType == ByEndDate && s.expectedDuration.Some? ==> s.expectedDuration.value >= 0
    ensures s.expectedDuration.None? ==> s.targetDate == f.targetDate
  {
    if f.durationType == ByDays && f.expectedDuration.Some? then
      Schedule(Some(AddDays(f.startDate, f.expectedDuration.value)), f.expectedDuration)
    else if f.durationType == ByEndDate && f.targetDate.Some? then
      Schedule(f.targetDate, Some(CeilAbsDays(f.startDate, f.targetDate.value)))
    else
      Schedule(f.targetDate, None)
  }

  /**
   * Whether the reconciliation completes. In days mode with a duration, the end
   * date is turned into a string with `toISOString()`, which throws on a date a
   * JavaScript `Date` cannot hold; no other path builds a date.
   */
  function TargetFits(f: GoalForm): (fits: bool)
    ensures fits <==> (f.durationType == ByDays && f.expectedDuration.Some? ==>
                        -MaxTime <= Midnight(AddDays(f.startDate, f.expectedDuration.value)) <= MaxTime)
  {
    if f.durationType == ByDays && f.expectedDuration.Some? then
      var end := AddDays(f.startDate, f.expectedDuration.value);
      RepresentableIffInTimeRange(end);
      Representable(end)
    else
      true
  }

  /** Days mode: the target is the start shifted by the duration, which is kept as entered. */
  lemma DaysModeSetsTarget(f: GoalForm, n: int)
    requires f.durationType == ByDays && f.expectedDuration == Some(n)
    ensures ScheduleOf(f) == Schedule(Some(AddDays(f.startDate, n)), Some(n))
    ensures DaysBetween(f.startDate, ScheduleOf(f).targetDate.value) == n
  {
  }

  /**
   * End-date mode: the target is kept and the duration is the non-negative
   * distance in days between start and target, whichever comes first.
   */
  lemma EndDateModeSetsDuration(f: GoalForm, t: Date)
    requires f.durationType == ByEndDate && f.targetDate == Some(t)
    ensures ScheduleOf(f).targetDate == Some(t)
    ensures ScheduleOf(f).expectedDuration == Some(Abs(t - f.startDate))
    ensures ScheduleOf(f).expectedDuration == Some(CeilAbsDays(t, f.startDate))
  {
    CeilAbsDaysSymmetric(f.startDate, t);
  }

  /** Without the selected mode's input, no duration is stored and the target passes through. */
  lemma MissingInputPassesThrough(f: GoalForm)
    requires f.durationType == ByDays ==> f.expectedDuration.None?
    requires f.durationType == ByEndDate ==> f.targetDate.None?
    ensures ScheduleOf(f) == Schedule(f.targetDate, None)
    ensures Exclusive(f) ==> ScheduleOf(f) == Schedule(None, None)
  {
  }

  /** A schedule is consistent when the target is exactly `expected_duration` days after the start. */
  predicate Consistent(start: Date, s: Schedule)
  {
    s.targetDate.Some? && s.expectedDuration.Some?
    && s.targetDate.value == AddDays(start, s.expectedDuration.value)
  }

  /**
   * Days mode always yields a consistent schedule; end-date mode yields one
   * exactly when the target is not before the start (the distance is unsigned).
   */
  lemma ConsistentIff(f: GoalForm)
    ensures f.durationType == ByDays && f.expectedDuration.Some? ==> Consistent(f.startDate, ScheduleOf(f))
    ensures f.durationType == ByEndDate && f.targetDate.Some? ==>
              (Consistent(f.startDate, ScheduleOf(f)) <==> f.targetDate.value >= f.startDate)
  {
  }

  /**
   * The two modes agree: an end date on or after the start, and the duration
   * end-date mode derives from it, give back the same end date in days mode.
   */
  lemma {:induction false} ModesAgree(f: GoalForm, t: Date)
    requires f.durationType == ByEndDate && f.targetDate == Some(t) && t >= f.startDate
    ensures var byDays := f.(durationType := ByDays, targetDate := None,
                             expectedDuration := ScheduleOf(f).expectedDuration);
            ScheduleOf(byDays) == ScheduleOf(f)
  {
    EndDateModeSetsDuration(f, t);
  }

  /**
   * The row `handleGoalSubmit` inserts, as the backend returns it with its new
   * `id`: the form's fields without the mode selector, the reconciled schedule,
   * the current user as owner, and status not_started.
   */
  function NewGoalRecord(f: GoalForm, userId: Id, id: Id): (g: Goal)
    ensures g.status == NotStarted && g.userId == userId && g.id == id
    ensures g.targetDate == ScheduleOf(f).targetDate && g.expectedDuration == ScheduleOf(f).expectedDuration
    ensures g.startDate == f.startDate && g.sectionId == f.sectionId && g.priority == f.priority
    ensures g.title == f.title && g.description == f.description
  {
    var s := ScheduleOf(f);
    Goal(id, userId, f.sectionId, f.title, f.description, f.startDate, s.targetDate,
         s.expectedDuration, NotStarted, f.priority)
  }
}
