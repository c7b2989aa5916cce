/** `TaskItem`: a task with urgency and importance levels 0...3 and its Eisenhower quadrant. */
module TaskItems {
  import opened Wrappers
  import opened Uuid

  datatype Quadrant = DoFirst | Schedule | Delegate | Eliminate

  /** Times are whole clock ticks. */
  datatype TaskItem = TaskItem(
    id: Uuid,
    title: string,
    notes: Option<string>,
    urgency: int,
    importance: int,
    createdAt: int,
    updatedAt: int)

  /** A level of 2 or more counts as high. */
  predicate IsHigh(level: int) { level >= 2 }

  /** `quadrant`: important and urgent, important only, urgent only, neither. */
  function QuadrantOf(t: TaskItem): (q: Quadrant)
    ensures q == DoFirst <==> IsHigh(t.importance) && IsHigh(t.urgency)
    ensures q == Schedule <==> IsHigh(t.importance) && !IsHigh(t.urgency)
    ensures q == Delegate <==> !IsHigh(t.importance) && IsHigh(t.urgency)
    ensures q == Eliminate <==> !IsHigh(t.importance) && !IsHigh(t.urgency)
  {
    match (t.importance >= 2, t.urgency >= 2)
    case (true, true) => DoFirst
    case (true, false) => Schedule
    case (false, true) => Delegate
    case _ => Eliminate
  }

  /** `max(0, min(3, v))`. */
  function ClampLevel(v: int): (r: int)
    ensures 0 <= r <= 3
    ensures 0 <= v <= 3 ==> r == v
    ensures v > 3 ==> r == 3
    ensures v < 0 ==> r == 0
  {
    if v < 0 then 0 else if v > 3 then 3 else v
  }

  /** `updating(urgency:importance:)` at clock time `now`: supplied levels are clamped, missing ones kept,
      the modification time set to `now`, everything else preserved. */
  function Updating(t: TaskItem, urgency: Option<int>, importance: Option<int>, now: int): (r: TaskItem)
    ensures r.id == t.id && r.title == t.title && r.notes == t.notes && r.createdAt == t.createdAt
    ensures r.urgency == if urgency.Some? then ClampLevel(urgency.value) else t.urgency
    ensures r.importance == if importance.Some? then ClampLevel(importance.value) else t.importance
    ensures r.updatedAt == now
    ensures now > t.updatedAt ==> r.updatedAt > t.updatedAt
  {
    var u := if urgency.Some? then ClampLevel(urgency.value) else t.urgency;
    var i := if importance.Some? then ClampLevel(importance.value) else t.importance;
    t.(urgency := u, importance := i, updatedAt := now)
  }

  /** Levels within 0...3 stay within 0...3. */
  predicate LevelsInRange(t: TaskItem)
  {
    0 <= t.urgency <= 3 && 0 <= t.importance <= 3
  }

  /** Updating keeps levels in range, and doing it twice with the same arguments is the same as doing it once. */
  lemma UpdatingInRangeIdempotent(t: TaskItem, urgency: Option<int>, importance: Option<int>, now: int)
    requires LevelsInRange(t)
    ensures LevelsInRange(Updating(t, urgency, importance, now))
    ensures Updating(Updating(t, urgency, importance, now), urgency, importance, now) == Updating(t, urgency, importance, now)
  {
  }

  /** Out-of-range levels are clamped: urgency 5 becomes 3 and importance -2 becomes 0. */
  lemma UpdatingClampsExample(t: TaskItem, now: int)
    ensures Updating(t, Some(5), Some(-2), now).urgency == 3
    ensures Updating(t, Some(5), Some(-2), now).importance == 0
  {
  }

  /** From (urgency 1, importance 1): importance 3 gives schedule, then urgency 3 gives do-first,
      then (1, 1) gives eliminate. */
  lemma ToggleSequence(t: TaskItem, n1: int, n2: int, n3: int)
    requires t.urgency == 1 && t.importance == 1
    ensures var t1 := Updating(t, None, Some(3), n1);
      && QuadrantOf(t1) == Schedule
      && var t2 := Updating(t1, Some(3), None, n2);
      && QuadrantOf(t2) == DoFirst
      && QuadrantOf(Updating(t2, Some(1), Some(1), n3)) == Eliminate
  {
  }
}
