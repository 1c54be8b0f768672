/**
 * The goal detail page (src/pages/GoalDetail.jsx) as an object: the goal it
 * shows, its progress updates, its streak row and the edit form. Backend calls
 * are parameters saying whether they succeeded. The ghost field `stored` follows
 * the backend's row for this goal, so that the page's copy can be compared with it.
 */
module GoalDetailPage {
  import opened Dates
  import opened Types
  import opened Streaks

  /**
   * What `.update({title, description, priority, section_id})` makes of the row:
   * those four fields from the edit form, every other field (status, dates,
   * duration, owner) as the row had it.
   */
  function ApplyEdit(row: Goal, edited: Goal): (r: Goal)
    ensures r.title == edited.title && r.description == edited.description
    ensures r.priority == edited.priority && r.sectionId == edited.sectionId
    ensures r.(title := row.title, description := row.description,
               priority := row.priority, sectionId := row.sectionId) == row
  {
    row.(title := edited.title, description := edited.description,
         priority := edited.priority, sectionId := edited.sectionId)
  }

  /** Saving the same edit twice writes nothing new, and saving the row over itself changes nothing. */
  lemma ApplyEditIdempotent(row: Goal, edited: Goal)
    ensures ApplyEdit(ApplyEdit(row, edited), edited) == ApplyEdit(row, edited)
    ensures ApplyEdit(row, row) == row
  {
  }

  /**
   * The streak the page holds after `updateStreak` on `today` for a signed-in
   * user: with no streak yet, the inserted first row if the insert succeeded;
   * otherwise the row advanced by the gap rule if the update succeeded. A failed
   * write keeps what the page held.
   */
  function StreakAfter(prior: Option<Streak>, userId: Id, goalId: Id, today: Date,
                       created: Insert, written: Write): (r: Option<Streak>)
    ensures prior.None? && created.InsertFailed? ==> r == prior
    ensures prior.Some? && written.WriteFailed? ==> r == prior
    ensures r.Some? && r != prior ==> r.value.lastUpdated == today && r.value.longestStreak >= r.value.currentStreak
    ensures prior.Some? ==> r.Some? && r.value.id == prior.value.id && r.value.longestStreak >= prior.value.longestStreak
    ensures prior.None? && created.Inserted? ==>
              && r.Some? && r.value.id == created.id && r.value.userId == userId && r.value.goalId == goalId
              && r.value.currentStreak == 1 && r.value.longestStreak == 1 && r.value.lastUpdated == today
    ensures prior.Some? && written.Written? ==> r == Some(AdvanceStreak(prior.value, today))
  {
    match prior
    case None => if created.Inserted? then Some(FirstStreak(created.id, userId, goalId, today)) else None
    case Some(s) => if written.Written? then Some(AdvanceStreak(s, today)) else prior
  }

  class GoalDetail {
    /** The goal id from the route. */
    const id: Id
    /** The goal shown; `None` while it has not loaded. */
    var goal: Option<Goal>
    /** The edit form's copy of the goal. */
    var editedGoal: Option<Goal>
    /** Progress updates, newest first. */
    var updates: seq<GoalUpdate>
    var streak: Option<Streak>
    /** The progress-update form's text. */
    var newUpdateContent: string
    var editMode: bool
    /** The backend's row for this goal, as far as this page's own writes go. */
    ghost var stored: Option<Goal>

    /** The goal, its edit copy and the backend row are all present or all absent, and all carry the route id. */
    ghost predicate Valid()
      reads this
    {
      && (goal.Some? <==> editedGoal.Some?)
      && (goal.Some? <==> stored.Some?)
      && (goal.Some? ==> goal.value.id == id && editedGoal.value.id == id && stored.value.id == id)
    }

    /** The page shows the goal exactly as the backend holds it. */
    ghost predicate Synced()
      reads this
    {
      goal == stored
    }

    /**
     * The page once its three fetches have returned: `fetchGoal` sets both the
     * goal and its edit copy, `fetchUpdates` the updates (none on an error), and
     * `fetchStreak` the first streak row of the goal, if any.
     */
    constructor(id: Id, fetchedGoal: Option<Goal>, fetchedUpdates: Option<seq<GoalUpdate>>, fetchedStreak: Option<Streak>)
      requires fetchedGoal.Some? ==> fetchedGoal.value.id == id
      ensures Valid() && Synced()
      ensures this.id == id && goal == fetchedGoal && editedGoal == fetchedGoal
      ensures updates == (if fetchedUpdates.Some? then fetchedUpdates.value else [])
      ensures streak == fetchedStreak && newUpdateContent == "" && !editMode
    {
      this.id := id;
      goal, editedGoal, stored := fetchedGoal, fetchedGoal, fetchedGoal;
      updates := if fetchedUpdates.Some? then fetchedUpdates.value else [];
      streak := fetchedStreak;
      newUpdateContent, editMode := "", false;
    }

    /**
     * `updateStreak`: for a signed-in user, inserts the first streak row or
     * writes the advanced one, and holds what the backend returns; a failed
     * write leaves the held streak as it was.
     */
    method UpdateStreak(user: Option<Id>, today: Date, created: Insert, written: Write)
      modifies this`streak
      ensures user.None? ==> streak == old(streak)
      ensures user.Some? ==> streak == StreakAfter(old(streak), user.value, id, today, created, written)
    {
      if user.None? {
        return;
      }
      if streak.None? {
        if created.InsertFailed? {
          return;
        }
        streak := Some(Streak(created.id, user.value, id, 1, 1, today));
      } else {
        var s := streak.value;
        var diffDays := FloorDays(Midnight(today) - Midnight(s.lastUpdated));
        var newCurrentStreak := s.currentStreak;
        if diffDays == 1 {
          newCurrentStreak := newCurrentStreak + 1;
        } else if diffDays > 1 {
          newCurrentStreak := 1;
        }
        if written.WriteFailed? {
          return;
        }
        streak := Some(s.(currentStreak := newCurrentStreak,
                          longestStreak := Max(newCurrentStreak, s.longestStreak),
                          lastUpdated := today));
      }
    }

    /**
     * `handleUpdateSubmit`: for a signed-in user, inserts the update; on success
     * puts it at the head of the list, clears the form and runs `updateStreak`.
     */
    method SubmitUpdate(user: Option<Id>, inserted: Insert, today: Date, created: Insert, written: Write)
      modifies this`updates, this`newUpdateContent, this`streak
      ensures user.None? || inserted.InsertFailed? ==>
                updates == old(updates) && newUpdateContent == old(newUpdateContent) && streak == old(streak)
      ensures user.Some? && inserted.Inserted? ==>
                && updates == [GoalUpdate(inserted.id, id, user.value, old(newUpdateContent))] + old(updates)
                && newUpdateContent == ""
                && streak == StreakAfter(old(streak), user.value, id, today, created, written)
    {
      if user.None? || inserted.InsertFailed? {
        return;
      }
      updates := [GoalUpdate(inserted.id, id, user.value, newUpdateContent)] + updates;
      newUpdateContent := "";
      UpdateStreak(user, today, created, written);
    }

    /**
     * `handleStartProgressConfirm`, reached from the "Start Progress" button: on
     * success the status becomes in_progress, in the backend row and on the page,
     * and nothing else about the goal changes.
     */
    method ConfirmStartProgress(reply: Write)
      requires Valid() && goal.Some?
      modifies this`goal, this`stored
      ensures Valid()
      ensures reply.WriteFailed? ==> goal == old(goal) && stored == old(stored)
      ensures reply.Written? ==>
                && goal == Some(old(goal).value.(status := InProgress))
                && stored == Some(old(stored).value.(status := InProgress))
      ensures old(Synced()) ==> Synced()
    {
      if reply.WriteFailed? {
        return;
      }
      stored := Some(stored.value.(status := InProgress));
      goal := Some(goal.value.(status := InProgress));
    }

    /**
     * `handleDoneConfirm`, reached from the "Mark as Done" button: on success the
     * status becomes completed, in the backend row and on the page.
     */
    method ConfirmDone(reply: Write)
      requires Valid() && goal.Some?
      modifies this`goal, this`stored
      ensures Valid()
      ensures reply.WriteFailed? ==> goal == old(goal) && stored == old(stored)
      ensures reply.Written? ==>
                && goal == Some(old(goal).value.(status := Completed))
                && stored == Some(old(stored).value.(status := Completed))
      ensures old(Synced()) ==> Synced()
    {
      if reply.WriteFailed? {
        return;
      }
      stored := Some(stored.value.(status := Completed));
      goal := Some(goal.value.(status := Completed));
    }

    /** "Edit Goal": opens the edit form on the edit copy as it stands. */
    method EnterEdit()
      modifies this`editMode
      ensures editMode
    {
      editMode := true;
    }

    /** Typing in the title or description box changes only the edit copy. */
    method EditText(title: string, description: string)
      requires Valid() && editedGoal.Some?
      modifies this`editedGoal
      ensures Valid()
      ensures editedGoal == Some(old(editedGoal).value.(title := title, description := description))
    {
      editedGoal := Some(editedGoal.value.(title := title, description := description));
    }

    /** `handleCancelEdit`: the edit copy is reset to the goal shown. */
    method CancelEdit()
      requires Valid()
      modifies this`editedGoal, this`editMode
      ensures Valid() && editedGoal == goal && !editMode
    {
      editedGoal := goal;
      editMode := false;
    }

    /**
     * `handleSaveEdit` as written: the backend row takes the four edited fields,
     * but the page then shows the whole edit copy. The copy is refreshed only on
     * load and on cancel, so a status change made since then is undone on the page
     * (not in the backend).
     */
    method SaveEdit(reply: Write)
      requires Valid() && goal.Some?
      modifies this`goal, this`stored, this`editMode
      ensures Valid()
      ensures reply.WriteFailed? ==> goal == old(goal) && stored == old(stored) && editMode == old(editMode)
      ensures reply.Written? ==> && stored == Some(ApplyEdit(old(stored).value, old(editedGoal).value))
                                 && goal == old(editedGoal) && !editMode
    {
      if reply.WriteFailed? {
        return;
      }
      stored := Some(ApplyEdit(stored.value, editedGoal.value));
      goal := editedGoal;
      editMode := false;
    }

    /**
     * `handleSaveEdit` as evidently intended: the page's goal takes the same four
     * fields the backend row takes, so the page stays in step with the backend
     * and the status, dates and duration shown are never changed by an edit.
     */
    method SaveEditMerged(reply: Write)
      requires Valid() && goal.Some?
      modifies this`goal, this`stored, this`editMode
      ensures Valid()
      ensures reply.WriteFailed? ==> goal == old(goal) && stored == old(stored) && editMode == old(editMode)
      ensures reply.Written? ==> && stored == Some(ApplyEdit(old(stored).value, old(editedGoal).value))
                                 && goal == Some(ApplyEdit(old(goal).value, old(editedGoal).value))
                                 && !editMode
      ensures goal.value.status == old(goal).value.status
      ensures old(Synced()) ==> Synced()
    {
      if reply.WriteFailed? {
        return;
      }
      stored := Some(ApplyEdit(stored.value, editedGoal.value));
      goal := Some(ApplyEdit(goal.value, editedGoal.value));
      editMode := false;
    }
  }

  /**
   * Recording one update on each of `days` in turn, on a page that holds no streak
   * yet, with every backend write succeeding: the page ends up holding the streak
   * row that replaying `days` gives. So for days in date order, the page's current
   * streak is the run of consecutive recorded days ending on the last one.
   */
  method RecordUpdates(page: GoalDetail, user: Id, streakId: Id, updateIds: seq<Id>, days: seq<Date>)
    requires page.streak.None? && |days| > 0 && |updateIds| == |days|
    modifies page
    ensures page.streak == Some(Replay(streakId, user, page.id, days))
    ensures |page.updates| == |old(page.updates)| + |days|
    ensures NonDecreasing(days) ==>
              && CoversRun(days, page.streak.value.lastUpdated, page.streak.value.currentStreak)
              && page.streak.value.lastUpdated - page.streak.value.currentStreak !in days
  {
    var k := 0;
    while k < |days|
      invariant 0 <= k <= |days|
      invariant k == 0 ==> page.streak.None?
      invariant k > 0 ==> page.streak == Some(Replay(streakId, user, page.id, days[..k]))
      invariant |page.updates| == |old(page.updates)| + k
    {
      page.SubmitUpdate(Some(user), Inserted(updateIds[k]), days[k], Inserted(streakId), Written);
      assert days[..k + 1][..k] == days[..k];
      k := k + 1;
    }
    assert days[..|days|] == days;
    if NonDecreasing(days) {
      ReplayCountsConsecutiveDays(streakId, user, page.id, days);
    }
  }

  /**
   * A goal in progress, marked done and then edited and saved with `SaveEdit`:
   * the page shows it in progress again while the backend holds it completed.
   */
  method StaleSaveRevertsStatus(g: Goal) returns (shown: Status, ghost held: Status)
    requires g.status == InProgress
    ensures shown == InProgress && held == Completed
  {
    var page := new GoalDetail(g.id, Some(g), None, None);
    page.ConfirmDone(Written);
    page.EnterEdit();
    page.SaveEdit(Written);
    shown := page.goal.value.status;
    held := page.stored.value.status;
  }

  /** The same steps with `SaveEditMerged`: page and backend both hold the goal completed. */
  method MergedSaveKeepsStatus(g: Goal) returns (shown: Status, ghost held: Status)
    requires g.status == InProgress
    ensures shown == Completed && held == Completed
  {
    var page := new GoalDetail(g.id, Some(g), None, None);
    page.ConfirmDone(Written);
    page.EnterEdit();
    page.SaveEditMerged(Written);
    shown := page.goal.value.status;
    held := page.stored.value.status;
  }
}
