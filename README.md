# Daility goal tracker — verified model of the goal pages

Daility is a personal goal tracker: users create goals, optionally grouped into
sections, move each goal through the lifecycle not_started → in_progress →
completed, and record progress updates, from which a per-goal daily "streak" is
kept. Everything else in the application is glue over a hosted backend. The
logic lives in two page components, and this project models it in Dafny:

- the **streak rule** of the goal detail page (`updateStreak`). An update exactly
  one day after the last one extends the streak. An update after a skipped day
  restarts it at one. An update on the same day, or on an earlier date, leaves it
  alone. The longest streak is the larger of the new current streak and the old
  longest.
- the **duration / target-date reconciliation** of goal creation
  (`handleGoalSubmit`) and the row it inserts.
- the **status lifecycle** and which buttons the pages offer for it.
- the **local goal list** of the list page: prepending created goals and
  sections, filtering out deleted goals, mapping status changes, and grouping
  goals by section for display.
- the **goal detail page's state**: the goal, its progress updates, its streak
  row and the edit form.

Dates are whole day numbers. A date-only `YYYY-MM-DD` string is parsed as UTC
midnight, so the pages' millisecond arithmetic (`/ (1000*60*60*24)` followed by
`Math.floor` or `Math.ceil`) is written out in `Dates` and proved exact.

The two pages are classes (`GoalsPage.Goals`, `GoalDetailPage.GoalDetail`). Their
fields are the React state, and their methods are the event handlers. Each
backend call is a parameter: `Write` (written / failed) or `Insert` (the stored
row's new id / failed). The signed-in user is an `Option<Id>` parameter. Each
handler is proved against pure specification functions (`ScheduleOf`,
`NewGoalRecord`, `RemoveGoal`, `SetStatusOf`, `AdvanceStreak`, `StreakAfter`,
`ApplyEdit`), and the properties are proved about those functions.

Files: `dates.dfy`, `types.dfy`, `streaks.dfy`, `lifecycle.dfy`, `goal_list.dfy`,
`reconcile.dfy`, `goals_page.dfy`, `goal_detail_page.dfy`.

## Model

| member | source | states |
|---|---|---|
| `Dates.Midnight` | src/pages/GoalDetail.jsx:138-139 | a parsed date-only string is a whole multiple of a day's milliseconds, and dividing by a day gives back the date |
| `Dates.FloorDays` | src/pages/GoalDetail.jsx:140 | `Math.floor(ms / day)` is the largest whole number of days not above `ms` |
| `Dates.CeilDays` | src/pages/Goals.jsx:138 | `Math.ceil(ms / day)` is the smallest whole number of days not below `ms` |
| `Dates.DaysBetween` | src/pages/GoalDetail.jsx:138-140 | the streak gap computed in milliseconds and floored is exactly the signed difference of the two dates |
| `Dates.CeilAbsDays` | src/pages/Goals.jsx:135-138 | the end-date duration computed in milliseconds, made absolute and rounded up, is exactly the unsigned day distance |
| `Dates.AddDays` | src/pages/Goals.jsx:130-131 | shifting a date by n days puts its midnight exactly n days of milliseconds later |
| `Dates.AddDaysThenMeasure` | src/pages/Goals.jsx:129-132 | shifting a date by n days and measuring back gives n, and an unsigned distance of abs(n) |
| `Dates.RepresentableIffInTimeRange` | src/pages/Goals.jsx:129-132 | a date can be held by a JavaScript `Date` exactly when its midnight lies within ±8.64 × 10^15 ms |
| `Dates.CeilAbsDaysSymmetric` | src/pages/Goals.jsx:137 | the end-date distance is the same whichever date comes first |
| `Streaks.FirstStreak` | src/pages/GoalDetail.jsx:116-127 | the first streak row of a goal belongs to the user and the goal, has current 1 and longest 1, and is stamped today |
| `Streaks.NextCurrent` | src/pages/GoalDetail.jsx:142-147 | a positive current streak stays positive and grows by at most one per update; a gap of zero or less keeps it; a positive gap either extends it by one or restarts it at 1 |
| `Streaks.AdvanceStreak` | src/pages/GoalDetail.jsx:138-157 | advancing a streak row keeps its id, owner and goal, stamps today, sets the longest to max(new current, old longest), and moves a positive current by at most one |
| `Streaks.NextDayExtends` | src/pages/GoalDetail.jsx:143-144 | an update exactly one day after the last one makes the current streak one longer |
| `Streaks.SkippedDayResets` | src/pages/GoalDetail.jsx:145-146 | an update two or more days after the last one resets the current streak to 1, whatever it was |
| `Streaks.SameOrEarlierDayHolds` | src/pages/GoalDetail.jsx:142-147 | an update on the same day or an earlier date leaves the current streak unchanged; the longest becomes max(current, longest) |
| `Streaks.SameDayIdempotent` | src/pages/GoalDetail.jsx:142-154 | a second update on the same day leaves the whole row as the first left it, whether the first created or advanced it |
| `Streaks.Replay` | src/pages/GoalDetail.jsx:110-166 | after any non-empty history of updates the row is stamped with the last day and 1 <= current <= longest |
| `Streaks.ReplayCountsConsecutiveDays` | src/pages/GoalDetail.jsx:138-147 | for updates in date order, the current streak is exactly the length of the run of consecutive recorded days ending on the last one |
| `Streaks.ReplayLongestDominatesHistory` | src/pages/GoalDetail.jsx:153 | the longest streak is at least the longest and the current streak at every earlier point of any history, so it never decreases |
| `Lifecycle.ParseStatus` | src/helper/types.js:11 | reading a status column value succeeds exactly for the three lifecycle codes and inverts `StatusCode` |
| `Lifecycle.ParseStatusCode` | src/helper/types.js:11 | every status round-trips through its column value |
| `Lifecycle.FormatStatus` | src/pages/GoalDetail.jsx:276-287 | `formatStatus` shows a value unchanged exactly when it is not one of the three status codes |
| `Lifecycle.FormatStatusDistinguishes` | src/pages/Goals.jsx:51-62 | distinct statuses get distinct labels |
| `Lifecycle.CardOffers` | src/pages/Goals.jsx:525-540 | a goal card shows a transition's button exactly when confirming it moves the status one step forward |
| `Lifecycle.DetailOffers` | src/pages/GoalDetail.jsx:338-347 | the detail page shows no transition button while editing, and otherwise exactly those that move the status one step forward |
| `Lifecycle.OfferedTransitionAdvances` | src/pages/GoalDetail.jsx:338-347 | a button is offered exactly when its transition moves the status one step forward; the detail page offers nothing while editing and otherwise exactly what the card offers; a completed goal is offered nothing |
| `Lifecycle.AtMostOneOffered` | src/pages/Goals.jsx:525-540 | a goal card never shows both "Start Progress" and "Done" |
| `Lifecycle.OfferedRunsClimb` | src/pages/Goals.jsx:566-581 | any sequence of offered transitions climbs one rank per step, so it has at most two steps and ends no later than completed |
| `GoalList.Filter` | src/pages/Goals.jsx:224 | `filter` keeps exactly the elements its predicate accepts and never lengthens the list |
| `GoalList.FilterAppend` | src/pages/Goals.jsx:515-516 | filtering works piecewise over concatenation, so kept elements stay in order |
| `GoalList.FilterKeepsAllIff` | src/pages/Goals.jsx:556-557 | a filter returns its input unchanged exactly when it accepts every element |
| `GoalList.RemoveGoal` | src/pages/Goals.jsx:224 | after a delete the list holds exactly the goals whose id differs from the deleted id |
| `GoalList.RemoveGoalKeepsOrder` | src/pages/Goals.jsx:224 | deleting keeps the remaining goals in their order |
| `GoalList.RemoveGoalChangesIff` | src/pages/Goals.jsx:219-224 | a delete changes the list exactly when some goal carries the id |
| `GoalList.SetStatusOf` | src/pages/Goals.jsx:254-258 | a status change keeps length and ids, leaves every other goal as it was, and changes only the status of the matching goals |
| `GoalList.SetStatusOfAppend` | src/pages/Goals.jsx:288-292 | status changes work piecewise over concatenation |
| `GoalList.Unsectioned` | src/pages/Goals.jsx:557 | a goal counts as unsectioned exactly when it has no non-empty section id, so it belongs to no section with a real id |
| `GoalList.SectionGoals` | src/pages/Goals.jsx:515-516 | a goal is listed under a section exactly when its section id equals the section's id |
| `GoalList.UnsectionedGoals` | src/pages/Goals.jsx:556-557 | a goal is listed outside the sections exactly when its section id is null or empty |
| `GoalList.NoGoalShownTwice` | src/pages/Goals.jsx:509-591 | with distinct non-empty section ids no goal is listed under two sections, or under a section and outside them |
| `GoalList.GoalShownIffPlaced` | src/pages/Goals.jsx:509-591 | a goal is shown somewhere exactly when it has no section or its section is listed |
| `GoalList.UnsectionedAfterSetStatus` | src/pages/Goals.jsx:254-258 | a status change commutes with the unsectioned filter: no goal enters or leaves that list |
| `GoalList.SectionAfterSetStatus` | src/pages/Goals.jsx:288-292 | a status change commutes with each section's filter |
| `Reconcile.EmptyForm` | src/pages/Goals.jsx:11-20 | the initial and reset form is in days mode with both inputs empty, so only the selected mode's input is filled |
| `Reconcile.Exclusive` | src/pages/Goals.jsx:394-412 | an exclusive form never has both the duration and the end date filled, and a form with neither is exclusive |
| `Reconcile.ScheduleOf` | src/pages/Goals.jsx:124-139 | a duration is stored exactly when the selected mode's input is filled, and then a target date is stored too; end-date mode never stores a negative duration; with no duration the form's target passes through |
| `Reconcile.TargetFits` | src/pages/Goals.jsx:128-133 | goal creation gets past `toISOString()` exactly when, in days mode with a duration, the computed end date's midnight lies within ±8.64 × 10^15 ms |
| `Reconcile.DaysModeSetsTarget` | src/pages/Goals.jsx:128-133 | days mode with duration n: target = start + n days and duration = n |
| `Reconcile.EndDateModeSetsDuration` | src/pages/Goals.jsx:134-138 | end-date mode keeps the target and sets duration = abs(target - start), symmetric in the two dates |
| `Reconcile.MissingInputPassesThrough` | src/pages/Goals.jsx:125-126 | without the selected mode's input the duration is null and the form's target passes through (empty for a form in its normal state) |
| `Reconcile.ConsistentIff` | src/pages/Goals.jsx:128-138 | target = start + duration always holds in days mode, and holds in end-date mode exactly when the target is not before the start |
| `Reconcile.ModesAgree` | src/pages/Goals.jsx:128-138 | an end date on or after the start and its derived duration give back the same schedule in days mode |
| `Reconcile.NewGoalRecord` | src/pages/Goals.jsx:141-150 | the created goal has status not_started, the current user as owner, the reconciled target and duration, and the form's other fields |
| `GoalsPage.Goals.constructor` | src/pages/Goals.jsx:9-41 | the page starts with empty lists, an empty form and closed dialogs |
| `GoalsPage.Goals.LoadGoals` | src/pages/Goals.jsx:64-80 | a successful fetch replaces the goal list; a failed one leaves it |
| `GoalsPage.Goals.LoadSections` | src/pages/Goals.jsx:82-98 | a successful fetch replaces the section list; a failed one leaves it |
| `GoalsPage.Goals.SelectDays` | src/pages/Goals.jsx:394-398 | switching to days mode clears the end date and keeps the form exclusive |
| `GoalsPage.Goals.SelectEndDate` | src/pages/Goals.jsx:408-412 | switching to end-date mode clears the duration and keeps the form exclusive |
| `GoalsPage.Goals.EnterDuration` | src/pages/Goals.jsx:427 | typing a duration changes only the duration |
| `GoalsPage.Goals.EnterTargetDate` | src/pages/Goals.jsx:445 | picking a target date changes only the target date |
| `GoalsPage.Goals.SubmitGoal` | src/pages/Goals.jsx:119-174 | on success the new goal is prepended and the rest of the list is unchanged and in order, and the form is reset; with no user, an end date out of the `Date` range or a failed insert nothing changes; with the selected mode's input empty the goal has neither target date nor duration |
| `GoalsPage.Goals.SubmitSection` | src/pages/Goals.jsx:176-202 | on success the new section is prepended and the form is reset; otherwise nothing changes |
| `GoalsPage.Goals.ClickDelete` | src/pages/Goals.jsx:204-212 | the delete dialog opens on the clicked goal's id and title |
| `GoalsPage.Goals.ConfirmDelete` | src/pages/Goals.jsx:214-226 | on success exactly the goals with the dialog's id are removed and the dialog closes; on error list and dialog are untouched |
| `GoalsPage.Goals.CancelDelete` | src/pages/Goals.jsx:228-230 | cancelling closes the delete dialog |
| `GoalsPage.Goals.ClickStartProgress` | src/pages/Goals.jsx:266-274 | the start-progress dialog opens only for a not-started goal |
| `GoalsPage.Goals.ConfirmStartProgress` | src/pages/Goals.jsx:276-294 | on success only the matching goals change, and only their status, to in_progress; on error nothing changes |
| `GoalsPage.Goals.CancelStartProgress` | src/pages/Goals.jsx:296-298 | cancelling closes the start-progress dialog |
| `GoalsPage.Goals.ClickDone` | src/pages/Goals.jsx:232-240 | the done dialog opens only for a goal in progress |
| `GoalsPage.Goals.ConfirmDone` | src/pages/Goals.jsx:242-260 | on success only the matching goals change, and only their status, to completed; on error nothing changes |
| `GoalsPage.Goals.CancelDone` | src/pages/Goals.jsx:262-264 | cancelling closes the done dialog |
| `GoalsPage.StartProgressFromCard` | src/pages/Goals.jsx:525-532 | clicking a card's "Start Progress" and confirming moves that goal one rank forward and leaves every other goal and the list length unchanged |
| `GoalDetailPage.ApplyEdit` | src/pages/GoalDetail.jsx:252-259 | an edit writes only title, description, priority and section; status, dates, duration and owner stay as they were |
| `GoalDetailPage.ApplyEditIdempotent` | src/pages/GoalDetail.jsx:252-259 | saving the same edit twice equals saving it once, and saving a row over itself changes nothing |
| `GoalDetailPage.StreakAfter` | src/pages/GoalDetail.jsx:110-166 | a failed insert or update keeps the held streak; a successful first insert yields the user's row for the goal with current 1, longest 1, stamped today; a successful update yields the row advanced by the gap rule (`AdvanceStreak`); an existing row keeps its id and never loses longest |
| `GoalDetailPage.GoalDetail.constructor` | src/pages/GoalDetail.jsx:28-78 | after the fetches the goal and its edit copy are the fetched goal, updates default to empty, the streak is the fetched row |
| `GoalDetailPage.GoalDetail.UpdateStreak` | src/pages/GoalDetail.jsx:110-166 | the held streak becomes the first row or the advanced row on success and is unchanged on failure or without a user |
| `GoalDetailPage.GoalDetail.SubmitUpdate` | src/pages/GoalDetail.jsx:80-108 | a recorded update is prepended to the list, the form is cleared and the streak advanced; without a user or on a failed insert nothing changes |
| `GoalDetailPage.GoalDetail.ConfirmStartProgress` | src/pages/GoalDetail.jsx:227-241 | on success the status becomes in_progress on the page and in the backend, every other field unchanged; on error nothing changes |
| `GoalDetailPage.GoalDetail.ConfirmDone` | src/pages/GoalDetail.jsx:201-215 | on success the status becomes completed on the page and in the backend, every other field unchanged; on error nothing changes |
| `GoalDetailPage.GoalDetail.EnterEdit` | src/pages/GoalDetail.jsx:247-249 | "Edit Goal" turns on edit mode without refreshing the edit copy |
| `GoalDetailPage.GoalDetail.EditText` | src/pages/GoalDetail.jsx:330 | typing in the title or description box changes only the edit copy |
| `GoalDetailPage.GoalDetail.CancelEdit` | src/pages/GoalDetail.jsx:271-274 | cancelling resets the edit copy to the goal shown and leaves edit mode |
| `GoalDetailPage.GoalDetail.SaveEdit` | src/pages/GoalDetail.jsx:251-269 | as written: the backend row takes the four edited fields, but the page shows the whole edit copy |
| `GoalDetailPage.GoalDetail.SaveEditMerged` | src/pages/GoalDetail.jsx:251-269 | corrected: page and backend both take the four edited fields, the status shown is unchanged, and a page in step with the backend stays in step |
| `GoalDetailPage.RecordUpdates` | src/pages/GoalDetail.jsx:80-166 | recording updates on a sequence of days, every write succeeding, leaves the page holding the replayed streak row; for days in date order its current streak is the run of consecutive recorded days ending on the last one |
| `GoalDetailPage.StaleSaveRevertsStatus` | src/pages/GoalDetail.jsx:267 | load in progress, mark done, edit, save: the page shows in_progress while the backend holds completed |
| `GoalDetailPage.MergedSaveKeepsStatus` | src/pages/GoalDetail.jsx:267 | the same steps with the corrected save: page and backend both hold completed |

## Findings

| source | as written | input that shows it | evidently intended | confidence | as-written member | corrected member |
|---|---|---|---|---|---|---|
| src/pages/GoalDetail.jsx:267 | after a successful save the page shows the whole edit copy (`setGoal(editedGoal)`). That copy is refreshed only on load (line 47) and on cancel (line 272). | Open a goal in progress. Confirm "Mark as Done". Click "Edit Goal". Save, with both writes succeeding. The page shows the goal in progress and offers "Mark as Done" again, while the backend row is completed. | the page takes the same four fields the backend update writes and keeps the status it showed | medium; not executed | `GoalDetailPage.GoalDetail.SaveEdit`, `GoalDetailPage.StaleSaveRevertsStatus` | `GoalDetailPage.GoalDetail.SaveEditMerged`, `GoalDetailPage.MergedSaveKeepsStatus` |

## Behaviour as the code has it

- **Missing duration input.** If the selected mode's input is empty, the handler
  does not reject the goal. It sends a null duration and passes the form's own
  target through, and whether the backend accepts that row is up to the backend.
  In the normal form state the target input is then empty too, because switching
  modes clears the other input (`MissingInputPassesThrough`, `SubmitGoal`). The
  browser's `required` attribute normally prevents such a submission.
- **An end date out of range aborts creation.** In days mode the end date is
  turned into a string with `toISOString()`. For a duration that puts it beyond
  100,000,000 days from 1970-01-01 the date is invalid and the call throws, so
  no goal is inserted (`TargetFits`, `SubmitGoal`).
- **End-date mode takes the unsigned distance.** A target before the start still
  gives a non-negative duration, so `target = start + duration` then fails
  (`ConsistentIff`). The input's `min` attribute normally prevents such a date.
- **Handlers do not check the status.** No handler rejects an illegal transition.
  The confirm handlers write the new status whatever the current one is. Only the
  buttons are gated by status (`Lifecycle.CardOffers`, `Lifecycle.DetailOffers`),
  and the click methods of the list page take that gating as their precondition.
- **Unsectioned means falsy.** A goal counts as unsectioned when its `section_id`
  is null or the empty string (`!goal.section_id`). A goal whose section is not
  among the listed sections is not shown at all (`GoalShownIffPlaced`).

## Left out

- Date strings, time zones and the wall clock. Dates are UTC day numbers. "Today" is a parameter. The local-time `setDate` followed by a UTC `toISOString` at src/pages/Goals.jsx:129-132 is taken as exactly n days.
- Empty text inputs. The form holds `''` in an empty duration or target-date input, and the handler sends that `''` as the target date. The model writes an empty input as `None` and does not distinguish the `''` sent for a target from a null one.
- The start date is taken to be a filled date input. An empty start date (`new Date('')`) is not modelled.
- The `Date` range is taken as exactly ±100,000,000 days of UTC midnights. The local-time offset applied by `setDate` near that boundary is not modelled.
- `parseInt` on text that is not a whole number. A filled duration input is taken to hold an integer.
- JavaScript number precision. Streak counts and durations are unbounded integers.
- Server-assigned timestamps (`created_at`, `updated_at`), the `sections(*)` join on fetched goals, and `progress_percentage`, which the pages never write.
- The backend itself: queries, the `delete_goal_with_dependencies` cascade, and authentication. Each call is only its outcome parameter.
- The goal detail page's delete (src/pages/GoalDetail.jsx:174-185). It only navigates away on success and changes no state of the page.
- The open/closed flags of the goal detail page's confirmation dialogs, and all navigation.
- Display-only arithmetic on the live clock: "Days Remaining" (src/pages/GoalDetail.jsx:407) and the end-date and duration previews (src/pages/Goals.jsx:433, 451).
- GoalDetailPage.GoalDetail.SubmitUpdate: `updateStreak` asks for the current user a second time, and the model passes it the same user as the submission.
- The order of the goal detail page's three fetches (src/pages/GoalDetail.jsx:28-32). The constructor assumes all three have returned before any handler runs. In the source the page renders once the goal arrives, so an update submitted before `fetchStreak` returns sees no streak and inserts a second streak row. That interleaving, and the several streak rows it leaves (src/pages/GoalDetail.jsx:76-77), are not represented.
- Concurrent submissions. Each handler is one sequential step, so the lost-update race on the streak row is not represented.
- Settings, Login, Register, Home, Dashboard, App routing and the ConfirmDialog component. They are presentation and auth glue with no computation.
