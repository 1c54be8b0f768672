/**
 * The goal status lifecycle: not_started, then in_progress, then completed. Both
 * pages show a status-changing button only for the one forward transition that
 * is legal from the goal's current status, and label statuses with `formatStatus`.
 */
module Lifecycle {
  import opened Types

  /** The column value stored for a status. */
  function StatusCode(s: Status): string
  {
    match s
    case NotStarted => "not_started"
    case InProgress => "in_progress"
    case Completed => "completed"
  }

  /** Reads a column value back; `None` for a value outside the enumeration. */
  function ParseStatus(code: string): (r: Option<Status>)
    ensures r.Some? ==> StatusCode(r.value) == code
    ensures r.None? ==> forall s :: StatusCode(s) != code
  {
    if code == "not_started" then Some(NotStarted)
    else if code == "in_progress" then Some(InProgress)
    else if code == "completed" then Some(Completed)
    else None
  }

  lemma ParseStatusCode(s: Status)
    ensures ParseStatus(StatusCode(s)) == Some(s)
  {
  }

  /**
   * `formatStatus`: the display label of a stored status value. The three known
   * values get a capitalised label that differs from the stored value; any other
   * value is shown as it is.
   */
  function FormatStatus(status: string): (shown: string)
    ensures ParseStatus(status).None? <==> shown == status
  {
    if status == "not_started" then "Not Started"
    else if status == "in_progress" then "In Progress"
    else if status == "completed" then "Completed"
    else status
  }

  /** Distinct statuses get distinct labels. */
  lemma FormatStatusDistinguishes(s: Status, t: Status)
    requires s != t
    ensures FormatStatus(StatusCode(s)) != FormatStatus(StatusCode(t))
  {
  }

  /** Position of a status along the lifecycle. */
  function Rank(s: Status): nat
  {
    match s
    case NotStarted => 0
    case InProgress => 1
    case Completed => 2
  }

  /** The two status-changing actions: "Start Progress" and "Mark as Done" / "Done". */
  datatype Transition = StartProgress | MarkDone

  /** The status a confirmed transition writes. */
  function Target(t: Transition): Status
  {
    match t
    case StartProgress => InProgress
    case MarkDone => Completed
  }

  /**
   * Whether the goal card on the goal list shows the button for `t`: exactly when
   * confirming it would move the goal one step forward.
   */
  function CardOffers(t: Transition, status: Status): (offered: bool)
    ensures offered <==> Rank(Target(t)) == Rank(status) + 1
  {
    match t
    case StartProgress => status == NotStarted
    case MarkDone => status == InProgress
  }

  /** Whether the goal detail page shows the button for `t`: never while editing, otherwise as the card does. */
  function DetailOffers(t: Transition, status: Status, editMode: bool): (offered: bool)
    ensures editMode ==> !offered
    ensures !editMode ==> (offered <==> Rank(Target(t)) == Rank(status) + 1)
  {
    !editMode && CardOffers(t, status)
  }

  /**
   * An offered transition moves the goal exactly one step forward; the detail
   * page offers nothing while editing and otherwise what the card does, and a
   * completed goal is offered nothing.
   */
  lemma OfferedTransitionAdvances(t: Transition, status: Status, editMode: bool)
    ensures editMode ==> !DetailOffers(t, status, editMode)
    ensures !editMode ==> (DetailOffers(t, status, editMode) <==> CardOffers(t, status))
    ensures CardOffers(t, status) <==> Rank(Target(t)) == Rank(status) + 1
    ensures status == Completed ==> !CardOffers(t, status)
  {
  }

  /** At any status at most one of the two buttons is shown. */
  lemma AtMostOneOffered(status: Status)
    ensures !(CardOffers(StartProgress, status) && CardOffers(MarkDone, status))
  {
  }

  /**
   * The status reached by confirming `ts` in order, each only while its button is
   * shown; `None` if some step's button would not be shown.
   */
  function RunOffered(s: Status, ts: seq<Transition>): Option<Status>
    decreases |ts|
  {
    if ts == [] then Some(s)
    else if CardOffers(ts[0], s) then RunOffered(Target(ts[0]), ts[1..])
    else None
  }

  /**
   * Any sequence of offered transitions climbs the lifecycle one step per
   * transition, so it is at most two long and never leaves `completed`.
   */
  lemma {:induction false} OfferedRunsClimb(s: Status, ts: seq<Transition>)
    requires RunOffered(s, ts).Some?
    ensures Rank(RunOffered(s, ts).value) == Rank(s) + |ts|
    ensures |ts| <= 2 - Rank(s)
    decreases |ts|
  {
    if ts != [] {
      OfferedRunsClimb(Target(ts[0]), ts[1..]);
    }
  }
}
