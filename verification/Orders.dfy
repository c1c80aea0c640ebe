/** The orders in which the store's queries take rows, and what a limited query of each order
    leaves behind. */
module Orders {
  import opened Rows
  import opened Query
  import opened Sets

  function PendingPriority(rows: map<TaskId, PendingRow>, id: TaskId): int {
    if id in rows then rows[id].priority else 0
  }

  function SchedulablePriority(rows: map<TaskId, SchedulableRow>, id: TaskId): int {
    if id in rows then rows[id].priority else 0
  }

  function UpdatedAt(rows: map<TaskId, ProcessingRow>, id: TaskId): Time {
    if id in rows then rows[id].updatedAt else 0
  }

  /** ORDER BY priority DESC. */
  function ByPriority(rows: map<TaskId, PendingRow>): (TaskId, TaskId) -> bool {
    (x: TaskId, y: TaskId) => PendingPriority(rows, x) >= PendingPriority(rows, y)
  }

  /** ORDER BY priority DESC, id. */
  function ByPriorityThenId(rows: map<TaskId, SchedulableRow>): (TaskId, TaskId) -> bool {
    (x: TaskId, y: TaskId) =>
      var p, q := SchedulablePriority(rows, x), SchedulablePriority(rows, y);
      p > q || (p == q && x <= y)
  }

  /** ORDER BY updated_at ASC. */
  function ByAge(rows: map<TaskId, ProcessingRow>): (TaskId, TaskId) -> bool {
    (x: TaskId, y: TaskId) => UpdatedAt(rows, x) <= UpdatedAt(rows, y)
  }

  function Expired(rows: map<TaskId, ProcessingRow>, deadline: Time): set<TaskId> {
    set id | id in rows && rows[id].updatedAt < deadline
  }

  /** No unlocked row left out has a higher priority than one picked. */
  ghost predicate HighestPriority(rows: map<TaskId, PendingRow>, locked: set<TaskId>, picked: set<TaskId>) {
    && picked <= rows.Keys - locked
    && forall x, y :: x in picked && y in rows.Keys - locked - picked ==> rows[x].priority >= rows[y].priority
  }

  /** An unlocked row left out has a lower priority than every one picked, or the same and a
      higher id. */
  ghost predicate MostUrgent(rows: map<TaskId, SchedulableRow>, locked: set<TaskId>, picked: set<TaskId>) {
    && picked <= rows.Keys - locked
    && forall x, y :: x in picked && y in rows.Keys - locked - picked ==>
         rows[x].priority > rows[y].priority || (rows[x].priority == rows[y].priority && x < y)
  }

  /** Only overdue unlocked rows are picked; where one is left out the limit is used up on
      rows no younger. */
  ghost predicate OldestOverdue(rows: map<TaskId, ProcessingRow>, deadline: Time, limit: int,
                                locked: set<TaskId>, picked: set<TaskId>)
  {
    && picked <= rows.Keys - locked && (forall x :: x in picked ==> rows[x].updatedAt < deadline)
    && forall y :: y in rows.Keys - locked - picked && rows[y].updatedAt < deadline ==>
         && |picked| == (if limit < 0 then 0 else limit)
         && forall x :: x in picked ==> rows[x].updatedAt <= rows[y].updatedAt
  }

  lemma TopIsMostUrgent(rows: map<TaskId, SchedulableRow>, limit: int, locked: set<TaskId>, picked: set<TaskId>)
    requires IsTop(rows.Keys - locked, limit, ByPriorityThenId(rows), picked)
    ensures MostUrgent(rows, locked, picked)
  {
    forall x, y | x in picked && y in rows.Keys - locked - picked
      ensures rows[x].priority > rows[y].priority || (rows[x].priority == rows[y].priority && x < y)
    {
      assert ByPriorityThenId(rows)(x, y);
    }
  }

  lemma TopIsOldestOverdue(rows: map<TaskId, ProcessingRow>, deadline: Time, limit: int,
                            locked: set<TaskId>, picked: set<TaskId>)
    requires IsTop(Expired(rows, deadline) - locked, limit, ByAge(rows), picked)
    ensures OldestOverdue(rows, deadline, limit, locked, picked)
  {
    var avail := Expired(rows, deadline) - locked;
    forall y | y in rows.Keys - locked - picked && rows[y].updatedAt < deadline
      ensures |picked| == (if limit < 0 then 0 else limit)
      ensures forall x :: x in picked ==> rows[x].updatedAt <= rows[y].updatedAt
    {
      assert y in avail && picked != avail;
      SubsetSize(picked, avail);
      forall x | x in picked ensures rows[x].updatedAt <= rows[y].updatedAt { assert ByAge(rows)(x, y); }
    }
  }
}
