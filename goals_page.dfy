/**
 * The goal list page (src/pages/Goals.jsx) as an object whose fields are the
 * page's state and whose methods are its event handlers. Every backend call is a
 * parameter saying whether it succeeded; a failed call leaves the state as it was.
 */
module GoalsPage {
  import opened Dates
  import opened Types
  import opened Lifecycle
  import opened GoalList
  import opened Reconcile

  /** A confirmation dialog: open or not, and the goal it asks about. */
  datatype Dialog = Dialog(isOpen: bool, goalId: Option<Id>, goalTitle: string)

  /** `{ isOpen: false, goalId: null, goalTitle: '' }` */
  const Closed: Dialog := Dialog(false, None, "")

  /** The section form, `newSection`. */
  datatype SectionForm = SectionForm(title: string, description: string)

  class Goals {
    var goals: seq<Goal>
    var sections: seq<Section>
    var newGoal: GoalForm
    var showGoalForm: bool
    var newSection: SectionForm
    var showSectionForm: bool
    var deleteDialog: Dialog
    var doneDialog: Dialog
    var startProgressDialog: Dialog

    /** The new-goal form only ever holds the input of its selected mode. */
    ghost predicate Valid()
      reads this
    {
      Exclusive(newGoal)
    }

    /** The page as first rendered on `today`, before its fetches return. */
    constructor(today: Date)
      ensures Valid()
      ensures goals == [] && sections == []
      ensures newGoal == EmptyForm(today) && !showGoalForm
      ensures newSection == SectionForm("", "") && !showSectionForm
      ensures deleteDialog == Closed && doneDialog == Closed && startProgressDialog == Closed
    {
      goals, sections := [], [];
      newGoal, showGoalForm := EmptyForm(today), false;
      newSection, showSectionForm := SectionForm("", ""), false;
      deleteDialog, doneDialog, startProgressDialog := Closed, Closed, Closed;
    }

    /**
     * `fetchGoals` / `fetchSections`: the user's rows, newest goal first and
     * oldest section first as the backend orders them; `None` when there is no
     * signed-in user or the query failed, which leaves the list alone.
     */
    method LoadGoals(fetched: Option<seq<Goal>>)
      modifies this`goals
      ensures goals == if fetched.Some? then fetched.value else old(goals)
    {
      if fetched.Some? {
        goals := fetched.value;
      }
    }

    method LoadSections(fetched: Option<seq<Section>>)
      modifies this`sections
      ensures sections == if fetched.Some? then fetched.value else old(sections)
    {
      if fetched.Some? {
        sections := fetched.value;
      }
    }

    /** The "Duration in days" radio: selecting it clears the end date. */
    method SelectDays()
      requires Valid()
      modifies this`newGoal
      ensures Valid()
      ensures newGoal == if old(newGoal).durationType == ByDays then old(newGoal)
                         else old(newGoal).(durationType := ByDays, targetDate := None)
    {
      if newGoal.durationType != ByDays {
        newGoal := newGoal.(durationType := ByDays, targetDate := None);
      }
    }

    /** The "End date" radio: selecting it clears the duration. */
    method SelectEndDate()
      requires Valid()
      modifies this`newGoal
      ensures Valid()
      ensures newGoal == if old(newGoal).durationType == ByEndDate then old(newGoal)
                         else old(newGoal).(durationType := ByEndDate, expectedDuration := None)
    {
      if newGoal.durationType != ByEndDate {
        newGoal := newGoal.(durationType := ByEndDate, expectedDuration := None);
      }
    }

    /** Typing in the duration input, which is shown only in days mode. */
    method EnterDuration(n: Option<int>)
      requires Valid() && newGoal.durationType == ByDays
      modifies this`newGoal
      ensures Valid() && newGoal == old(newGoal).(expectedDuration := n)
    {
      newGoal := newGoal.(expectedDuration := n);
    }

    /** Picking a date in the target-date input, which is shown only in end-date mode. */
    method EnterTargetDate(t: Option<Date>)
      requires Valid() && newGoal.durationType == ByEndDate
      modifies this`newGoal
      ensures Valid() && newGoal == old(newGoal).(targetDate := t)
    {
      newGoal := newGoal.(targetDate := t);
    }

    /**
     * `handleGoalSubmit`. With a signed-in user it reconciles duration and target
     * date, inserts the goal with status not_started, and on success puts the
     * stored row at the head of the list, hides the form and resets it to `today`.
     * An end date out of the `Date` range throws before the insert, and nothing
     * changes. With the selected mode's input empty, the goal gets neither a
     * target date nor a duration.
     */
    method SubmitGoal(user: Option<Id>, reply: Insert, today: Date)
      requires Valid()
      modifies this`goals, this`newGoal, this`showGoalForm
      ensures Valid()
      ensures user.None? || !TargetFits(old(newGoal)) || reply.InsertFailed? ==>
                goals == old(goals) && newGoal == old(newGoal) && showGoalForm == old(showGoalForm)
      ensures user.Some? && TargetFits(old(newGoal)) && reply.Inserted? ==>
                && goals == [NewGoalRecord(old(newGoal), user.value, reply.id)] + old(goals)
                && newGoal == EmptyForm(today) && !showGoalForm
      ensures user.Some? && reply.Inserted?
              && (old(newGoal).durationType == ByDays ==> old(newGoal).expectedDuration.None?)
              && (old(newGoal).durationType == ByEndDate ==> old(newGoal).targetDate.None?) ==>
                goals[0].targetDate.None? && goals[0].expectedDuration.None?
    {
      if user.None? {
        return;
      }
      var targetDate := newGoal.targetDate;
      var expectedDuration: Option<int> := None;
      if newGoal.durationType == ByDays && newGoal.expectedDuration.Some? {
        var endDate := AddDays(newGoal.startDate, newGoal.expectedDuration.value);
        if !Representable(endDate) {
          return;
        }
        targetDate := Some(endDate);
        expectedDuration := newGoal.expectedDuration;
      } else if newGoal.durationType == ByEndDate && newGoal.targetDate.Some? {
        var diffTime := Abs(Midnight(newGoal.targetDate.value) - Midnight(newGoal.startDate));
        expectedDuration := Some(CeilDays(diffTime));
      }
      var goalData := Goal("", user.value, newGoal.sectionId, newGoal.title, newGoal.description,
                           newGoal.startDate, targetDate, expectedDuration, NotStarted, newGoal.priority);
      if reply.InsertFailed? {
        return;
      }
      goals := [goalData.(id := reply.id)] + goals;
      showGoalForm := false;
      newGoal := EmptyForm(today);
    }

    /** `handleSectionSubmit`: on success the stored section goes to the head of the list. */
    method SubmitSection(user: Option<Id>, reply: Insert)
      modifies this`sections, this`newSection, this`showSectionForm
      ensures user.None? || reply.InsertFailed? ==>
                sections == old(sections) && newSection == old(newSection) && showSectionForm == old(showSectionForm)
      ensures user.Some? && reply.Inserted? ==>
                && sections == [Section(reply.id, user.value, old(newSection).title, old(newSection).description)] + old(sections)
                && newSection == SectionForm("", "") && !showSectionForm
    {
      if user.None? || reply.InsertFailed? {
        return;
      }
      sections := [Section(reply.id, user.value, newSection.title, newSection.description)] + sections;
      showSectionForm := false;
      newSection := SectionForm("", "");
    }

    /** The card's "Delete" button, shown on every goal: asks to confirm deleting `g`. */
    method ClickDelete(g: Goal)
      modifies this`deleteDialog
      ensures deleteDialog == Dialog(true, Some(g.id), g.title)
    {
      deleteDialog := Dialog(true, Some(g.id), g.title);
    }

    /**
     * `handleDeleteConfirm`: after the backend's cascading delete succeeds, the
     * goals with the dialog's id leave the list and the dialog closes; on an error
     * the list and the open dialog stay as they were.
     */
    method ConfirmDelete(reply: Write)
      modifies this`goals, this`deleteDialog
      ensures reply.WriteFailed? ==> goals == old(goals) && deleteDialog == old(deleteDialog)
      ensures reply.Written? ==> goals == RemoveGoal(old(goals), old(deleteDialog).goalId) && deleteDialog == Closed
    {
      if reply.WriteFailed? {
        return;
      }
      goals := RemoveGoal(goals, deleteDialog.goalId);
      deleteDialog := Closed;
    }

    method CancelDelete()
      modifies this`deleteDialog
      ensures deleteDialog == Closed
    {
      deleteDialog := Closed;
    }

    /** The card's "Start Progress" button, shown only on a goal that has not started. */
    method ClickStartProgress(g: Goal)
      requires CardOffers(StartProgress, g.status)
      modifies this`startProgressDialog
      ensures startProgressDialog == Dialog(true, Some(g.id), g.title)
    {
      startProgressDialog := Dialog(true, Some(g.id), g.title);
    }

    /**
     * `handleStartProgressConfirm`: on success the goals with the dialog's id get
     * status in_progress, nothing else in the list changes, and the dialog closes.
     */
    method ConfirmStartProgress(reply: Write)
      modifies this`goals, this`startProgressDialog
      ensures reply.WriteFailed? ==> goals == old(goals) && startProgressDialog == old(startProgressDialog)
      ensures reply.Written? ==>
                goals == SetStatusOf(old(goals), old(startProgressDialog).goalId, InProgress)
                && startProgressDialog == Closed
    {
      if reply.WriteFailed? {
        return;
      }
      goals := SetStatusOf(goals, startProgressDialog.goalId, InProgress);
      startProgressDialog := Closed;
    }

    method CancelStartProgress()
      modifies this`startProgressDialog
      ensures startProgressDialog == Closed
    {
      startProgressDialog := Closed;
    }

    /** The card's "Done" button, shown only on a goal in progress. */
    method ClickDone(g: Goal)
      requires CardOffers(MarkDone, g.status)
      modifies this`doneDialog
      ensures doneDialog == Dialog(true, Some(g.id), g.title)
    {
      doneDialog := Dialog(true, Some(g.id), g.title);
    }

    /**
     * `handleDoneConfirm`: on success the goals with the dialog's id get status
     * completed, nothing else in the list changes, and the dialog closes.
     */
    method ConfirmDone(reply: Write)
      modifies this`goals, this`doneDialog
      ensures reply.WriteFailed? ==> goals == old(goals) && doneDialog == old(doneDialog)
      ensures reply.Written? ==>
                goals == SetStatusOf(old(goals), old(doneDialog).goalId, Completed) && doneDialog == Closed
    {
      if reply.WriteFailed? {
        return;
      }
      goals := SetStatusOf(goals, doneDialog.goalId, Completed);
      doneDialog := Closed;
    }

    method CancelDone()
      modifies this`doneDialog
      ensures doneDialog == Closed
    {
      doneDialog := Closed;
    }
  }

  /**
   * Starting a goal from its card and confirming moves exactly that goal one step
   * along the lifecycle, and leaves the rest of the list as it was.
   */
  method StartProgressFromCard(page: Goals, i: nat)
    requires i < |page.goals| && CardOffers(StartProgress, page.goals[i].status)
    requires forall j :: 0 <= j < |page.goals| && j != i ==> page.goals[j].id != page.goals[i].id
    modifies page
    ensures |page.goals| == |old(page.goals)|
    ensures page.goals[i] == old(page.goals[i]).(status := InProgress)
    ensures Rank(page.goals[i].status) == Rank(old(page.goals[i].status)) + 1
    ensures forall j :: 0 <= j < |page.goals| && j != i ==> page.goals[j] == old(page.goals[j])
  {
    page.ClickStartProgress(page.goals[i]);
    page.ConfirmStartProgress(Written);
  }
}
