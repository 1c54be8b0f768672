/**
 * The goal list page keeps its goals in one list and recomputes it with pure
 * `filter` and `map` expressions: deleting a goal filters it out, a status change
 * maps over the list rewriting one goal, and the display groups the list by
 * section with two more filters.
 */
module GoalList {
  import opened Types

  /** `Array.prototype.filter`: the elements of `s` that `keep` accepts, in order. */
  function Filter<T(!new)>(s: seq<T>, keep: T -> bool): (r: seq<T>)
    ensures |r| <= |s|
    ensures forall x :: x in r <==> x in s && keep(x)
    decreases |s|
  {
    if s == [] then []
    else (if keep(s[0]) then [s[0]] else []) + Filter(s[1..], keep)
  }

  /** Filtering works piecewise, so it keeps the relative order of what it keeps. */
  lemma {:induction false} FilterAppend<T(!new)>(a: seq<T>, b: seq<T>, keep: T -> bool)
    ensures Filter(a + b, keep) == Filter(a, keep) + Filter(b, keep)
    decreases |a|
  {
    if a == [] {
      assert a + b == b;
    } else {
      var head := if keep(a[0]) then [a[0]] else [];
      assert (a + b)[0] == a[0];
      assert (a + b)[1..] == a[1..] + b;
      assert Filter(a + b, keep) == head + Filter(a[1..] + b, keep);
      FilterAppend(a[1..], b, keep);
      assert Filter(a, keep) == head + Filter(a[1..], keep);
    }
  }

  /** Filtering drops something exactly when some element is rejected. */
  lemma {:induction false} FilterKeepsAllIff<T(!new)>(s: seq<T>, keep: T -> bool)
    ensures Filter(s, keep) == s <==> forall x :: x in s ==> keep(x)
    decreases |s|
  {
    if s != [] {
      FilterKeepsAllIff(s[1..], keep);
      if !keep(s[0]) {
        assert |Filter(s, keep)| < |s|;
      }
    }
  }

  /**
   * The list after a confirmed delete of the goal with id `target` (the dialog's
   * goal id, null until a delete was requested): the goals with any other id.
   */
  function RemoveGoal(goals: seq<Goal>, target: Option<Id>): (r: seq<Goal>)
    ensures forall g :: g in r <==> g in goals && Some(g.id) != target
    ensures |r| <= |goals|
  {
    Filter(goals, (g: Goal) => Some(g.id) != target)
  }

  /** Deleting works piecewise: the goals that remain keep their order. */
  lemma RemoveGoalKeepsOrder(a: seq<Goal>, b: seq<Goal>, target: Option<Id>)
    ensures RemoveGoal(a + b, target) == RemoveGoal(a, target) + RemoveGoal(b, target)
  {
    FilterAppend(a, b, (g: Goal) => Some(g.id) != target);
  }

  /** The list changes exactly when some goal carries the target id. */
  lemma RemoveGoalChangesIff(goals: seq<Goal>, target: Option<Id>)
    ensures RemoveGoal(goals, target) == goals <==> forall g :: g in goals ==> Some(g.id) != target
  {
    FilterKeepsAllIff(goals, (g: Goal) => Some(g.id) != target);
  }

  /**
   * The list after a confirmed status change of the goal with id `target`: that
   * goal (every goal with that id) gets `status`; nothing else changes.
   */
  function SetStatusOf(goals: seq<Goal>, target: Option<Id>, status: Status): (r: seq<Goal>)
    ensures |r| == |goals|
    ensures forall i :: 0 <= i < |goals| ==> r[i].id == goals[i].id
    ensures forall i :: 0 <= i < |goals| && Some(goals[i].id) != target ==> r[i] == goals[i]
    ensures forall i :: 0 <= i < |goals| && Some(goals[i].id) == target ==>
              r[i].status == status && r[i].(status := goals[i].status) == goals[i]
    decreases |goals|
  {
    if goals == [] then []
    else
      var g := goals[0];
      [if Some(g.id) == target then g.(status := status) else g] + SetStatusOf(goals[1..], target, status)
  }

  /**
   * `!goal.section_id`: the goal has no section (null, or the empty string), so
   * it cannot belong to any section with a real id.
   */
  function Unsectioned(g: Goal): (none: bool)
    ensures none <==> forall sid :: g.sectionId == Some(sid) ==> sid == ""
    ensures none ==> forall s: Section :: s.id != "" ==> g.sectionId != Some(s.id)
  {
    g.sectionId.None? || g.sectionId.value == ""
  }

  /** The goals listed under section `s`, in list order. */
  function SectionGoals(goals: seq<Goal>, s: Section): (r: seq<Goal>)
    ensures forall g :: g in r <==> g in goals && g.sectionId == Some(s.id)
  {
    Filter(goals, (g: Goal) => g.sectionId == Some(s.id))
  }

  /** The goals listed below the sections, outside any of them, in list order. */
  function UnsectionedGoals(goals: seq<Goal>): (r: seq<Goal>)
    ensures forall g :: g in r <==> g in goals && Unsectioned(g)
  {
    Filter(goals, Unsectioned)
  }

  ghost predicate DistinctNonEmptyIds(sections: seq<Section>)
  {
    && (forall i :: 0 <= i < |sections| ==> sections[i].id != "")
    && (forall i, j :: 0 <= i < j < |sections| ==> sections[i].id != sections[j].id)
  }

  /**
   * With the backend's section ids (distinct and never empty), no goal is shown
   * twice: not under two sections, and not under a section and among the
   * unsectioned goals.
   */
  lemma NoGoalShownTwice(goals: seq<Goal>, sections: seq<Section>, g: Goal)
    requires DistinctNonEmptyIds(sections)
    ensures g in UnsectionedGoals(goals) ==> forall s :: s in sections ==> g !in SectionGoals(goals, s)
    ensures forall i, j :: 0 <= i < j < |sections| && g in SectionGoals(goals, sections[i]) ==>
              g !in SectionGoals(goals, sections[j])
  {
  }

  /**
   * A goal of the list is shown somewhere exactly when it has no section or its
   * section is among the listed sections; a goal whose section is not listed is
   * not shown at all.
   */
  lemma GoalShownIffPlaced(goals: seq<Goal>, sections: seq<Section>, g: Goal)
    requires g in goals
    ensures (g in UnsectionedGoals(goals) || exists s :: s in sections && g in SectionGoals(goals, s))
        <==> (Unsectioned(g) || exists s :: s in sections && g.sectionId == Some(s.id))
  {
  }

  /** Status changes work piecewise. */
  lemma SetStatusOfAppend(a: seq<Goal>, b: seq<Goal>, target: Option<Id>, status: Status)
    ensures SetStatusOf(a + b, target, status) == SetStatusOf(a, target, status) + SetStatusOf(b, target, status)
  {
    var l, r := SetStatusOf(a + b, target, status), SetStatusOf(a, target, status) + SetStatusOf(b, target, status);
    forall i | 0 <= i < |l| ensures l[i] == r[i] {
      if i >= |a| { assert (a + b)[i] == b[i - |a|]; }
    }
  }

  /** A status change never moves a goal into or out of the unsectioned list. */
  lemma {:induction false} UnsectionedAfterSetStatus(goals: seq<Goal>, target: Option<Id>, status: Status)
    ensures UnsectionedGoals(SetStatusOf(goals, target, status)) == SetStatusOf(UnsectionedGoals(goals), target, status)
    decreases |goals|
  {
    if goals != [] {
      var g, rest := goals[0], goals[1..];
      var r := SetStatusOf(goals, target, status);
      assert r[1..] == SetStatusOf(rest, target, status);
      UnsectionedAfterSetStatus(rest, target, status);
      var head := if Unsectioned(g) then [g] else [];
      assert Filter(goals, Unsectioned) == head + Filter(rest, Unsectioned);
      SetStatusOfAppend(head, Filter(rest, Unsectioned), target, status);
    }
  }

  /** A status change never moves a goal into or out of a section's list. */
  lemma {:induction false} SectionAfterSetStatus(goals: seq<Goal>, target: Option<Id>, status: Status, s: Section)
    ensures SectionGoals(SetStatusOf(goals, target, status), s) == SetStatusOf(SectionGoals(goals, s), target, status)
    decreases |goals|
  {
    if goals != [] {
      var g, rest := goals[0], goals[1..];
      var r := SetStatusOf(goals, target, status);
      var inS := (h: Goal) => h.sectionId == Some(s.id);
      assert r[1..] == SetStatusOf(rest, target, status);
      SectionAfterSetStatus(rest, target, status, s);
      var head := if inS(g) then [g] else [];
      assert Filter(goals, inS) == head + Filter(rest, inS);
      SetStatusOfAppend(head, Filter(rest, inS), target, status);
    }
  }
}
