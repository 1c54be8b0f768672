/**
 * The streak rule of the goal detail page (`updateStreak`), as pure functions on
 * streak rows, and what it means over a whole history of recorded updates: the
 * current streak is the number of consecutive calendar days, ending on the last
 * recorded day, on each of which at least one update was recorded.
 */
module Streaks {
  import opened Dates
  import opened Types

  function Max(a: int, b: int): (m: int)
    ensures m >= a && m >= b && (m == a || m == b)
  {
    if a >= b then a else b
  }

  /**
   * The row inserted when a goal has no streak yet: it belongs to the user and the
   * goal, counts one day as both the current and the best streak, and is stamped today.
   */
  function FirstStreak(id: Id, userId: Id, goalId: Id, today: Date): (r: Streak)
    ensures r.id == id && r.userId == userId && r.goalId == goalId
    ensures r.currentStreak == 1 && r.longestStreak == 1 && r.lastUpdated == today
  {
    Streak(id, userId, goalId, 1, 1, today)
  }

  /**
   * The new `current_streak` after a gap of `gap` days: one more after exactly one
   * day, back to one after a skipped day, and unchanged for a gap of zero or less.
   */
  function NextCurrent(current: int, gap: int): (next: int)
    ensures current >= 1 ==> 1 <= next <= current + 1
    ensures gap <= 0 ==> next == current
    ensures gap > 0 ==> next == 1 || next == current + 1
  {
    if gap == 1 then current + 1
    else if gap > 1 then 1
    else current
  }

  /** The update written to an existing streak row when progress is recorded on `today`. */
  function AdvanceStreak(s: Streak, today: Date): (r: Streak)
    ensures r.id == s.id && r.userId == s.userId && r.goalId == s.goalId
    ensures r.lastUpdated == today
    ensures r.longestStreak == Max(r.currentStreak, s.longestStreak)
    ensures s.currentStreak >= 1 ==> 1 <= r.currentStreak <= s.currentStreak + 1
  {
    var current := NextCurrent(s.currentStreak, DaysBetween(s.lastUpdated, today));
    s.(currentStreak := current, longestStreak := Max(current, s.longestStreak), lastUpdated := today)
  }

  /** An update exactly one calendar day after the last one extends the streak. */
  lemma NextDayExtends(s: Streak, today: Date)
    requires today == s.lastUpdated + 1
    ensures AdvanceStreak(s, today).currentStreak == s.currentStreak + 1
  {
  }

  /** An update after one or more skipped days restarts the streak at one, whatever it was. */
  lemma SkippedDayResets(s: Streak, today: Date)
    requires today > s.lastUpdated + 1
    ensures AdvanceStreak(s, today).currentStreak == 1
  {
  }

  /** An update on the same day, or on a date before the last one, leaves the count alone. */
  lemma SameOrEarlierDayHolds(s: Streak, today: Date)
    requires today <= s.lastUpdated
    ensures AdvanceStreak(s, today).currentStreak == s.currentStreak
    ensures AdvanceStreak(s, today).longestStreak == Max(s.currentStreak, s.longestStreak)
  {
  }

  /**
   * Recording a second update on the same day changes nothing: the row after two
   * updates equals the row after one, whether the first created or advanced it.
   */
  lemma SameDayIdempotent(s: Streak, id: Id, userId: Id, goalId: Id, today: Date)
    ensures AdvanceStreak(AdvanceStreak(s, today), today) == AdvanceStreak(s, today)
    ensures AdvanceStreak(FirstStreak(id, userId, goalId, today), today)
         == FirstStreak(id, userId, goalId, today)
  {
  }

  /**
   * The streak row after recording updates on `days`, in order, starting from no
   * row at all: the first creates it, each later one advances it.
   */
  function Replay(id: Id, userId: Id, goalId: Id, days: seq<Date>): (s: Streak)
    requires |days| > 0
    ensures s.id == id && s.userId == userId && s.goalId == goalId
    ensures s.lastUpdated == days[|days| - 1]
    ensures 1 <= s.currentStreak <= s.longestStreak
    decreases |days|
  {
    if |days| == 1 then FirstStreak(id, userId, goalId, days[0])
    else AdvanceStreak(Replay(id, userId, goalId, days[..|days| - 1]), days[|days| - 1])
  }

  /** Every day from `last - k + 1` through `last` occurs among `days`. */
  ghost predicate CoversRun(days: seq<Date>, last: Date, k: int)
  {
    forall d :: last - k < d <= last ==> d in days
  }

  ghost predicate NonDecreasing(days: seq<Date>)
  {
    forall i, j :: 0 <= i < j < |days| ==> days[i] <= days[j]
  }

  /**
   * For updates recorded in date order, the current streak is exactly the length
   * of the run of consecutive recorded days that ends on the last one: every day
   * of the run has an update, and the day before the run has none.
   */
  lemma {:induction false} ReplayCountsConsecutiveDays(id: Id, userId: Id, goalId: Id, days: seq<Date>)
    requires |days| > 0 && NonDecreasing(days)
    ensures var s := Replay(id, userId, goalId, days);
            CoversRun(days, s.lastUpdated, s.currentStreak) && s.lastUpdated - s.currentStreak !in days
  {
    var n := |days|;
    var s := Replay(id, userId, goalId, days);
    if n == 1 {
      assert days == [days[0]];
    } else {
      var prefix := days[..n - 1];
      var today := days[n - 1];
      assert days == prefix + [today];
      assert NonDecreasing(prefix);
      ReplayCountsConsecutiveDays(id, userId, goalId, prefix);
      var p := Replay(id, userId, goalId, prefix);
      var last := p.lastUpdated;
      assert last == prefix[n - 2];
      assert forall i :: 0 <= i < n - 1 ==> prefix[i] <= last;
      assert forall d :: d in days <==> d in prefix || d == today;
      assert today >= last;
      if today == last {
        assert s.currentStreak == p.currentStreak;
      } else if today == last + 1 {
        assert s.currentStreak == p.currentStreak + 1;
      } else {
        assert s.currentStreak == 1;
        assert today - 1 !in prefix;
      }
    }
  }

  /**
   * The longest streak is never below the current streak or the longest streak of
   * any earlier point of the history: it never decreases, whatever the dates.
   */
  lemma {:induction false} ReplayLongestDominatesHistory(id: Id, userId: Id, goalId: Id, days: seq<Date>, i: nat)
    requires 0 < i <= |days|
    ensures Replay(id, userId, goalId, days[..i]).longestStreak <= Replay(id, userId, goalId, days).longestStreak
    ensures Replay(id, userId, goalId, days[..i]).currentStreak <= Replay(id, userId, goalId, days).longestStreak
    decreases |days|
  {
    var n := |days|;
    if i < n {
      var prefix := days[..n - 1];
      assert days[..i] == prefix[..i];
      ReplayLongestDominatesHistory(id, userId, goalId, prefix, i);
    } else {
      assert days[..i] == days;
    }
  }
}
