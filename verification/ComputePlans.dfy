/** backend/api/models/computeplan.py: the status, dates and first failed task of a compute plan are
    recomputed from its task rows. Every function here takes `ts`, the rows of that plan's own tasks. */
module ComputePlans {
  import opened Common
  import opened Rows

  type PlanTasks = map<Key, Task>

  function ComputeTasks(tasks: map<Key, Task>, plan: Key): PlanTasks {
    map k | k in tasks && tasks[k].plan == plan :: tasks[k]
  }

  /* ---------- get_task_stats ---------- */

  datatype TaskStats = TaskStats(
    taskCount: nat,
    doneCount: nat,
    waitingBuilderSlotCount: nat,
    buildingCount: nat,
    waitingParentTasksCount: nat,
    waitingExecutorSlotCount: nat,
    executingCount: nat,
    canceledCount: nat,
    failedCount: nat)

  function WithStatus(ts: PlanTasks, st: TaskStatus): set<Key> {
    set k | k in ts && ts[k].status == st
  }

  function GetTaskStats(ts: PlanTasks): TaskStats {
    TaskStats(
      |ts.Keys|,
      |WithStatus(ts, Done)|,
      |WithStatus(ts, WaitingForBuilderSlot)|,
      |WithStatus(ts, Building)|,
      |WithStatus(ts, WaitingForParentTasks)|,
      |WithStatus(ts, WaitingForExecutorSlot)|,
      |WithStatus(ts, Executing)|,
      |WithStatus(ts, Canceled)|,
      |WithStatus(ts, Failed)|)
  }

  lemma CountWithout(ts: PlanTasks, k: Key, st: TaskStatus)
    requires k in ts
    ensures |WithStatus(ts, st)| == |WithStatus(ts - {k}, st)| + if ts[k].status == st then 1 else 0
  {
    assert WithStatus(ts - {k}, st) == WithStatus(ts, st) - {k};
  }

  /** Every task is counted exactly once. */
  lemma {:induction false} StatsPartition(ts: PlanTasks)
    ensures var s := GetTaskStats(ts);
            s.doneCount + s.waitingBuilderSlotCount + s.buildingCount + s.waitingParentTasksCount
            + s.waitingExecutorSlotCount + s.executingCount + s.canceledCount + s.failedCount == s.taskCount
    decreases |ts|
  {
    if ts.Keys != {} {
      var k :| k in ts.Keys;
      StatsPartition(ts - {k});
      assert (ts - {k}).Keys == ts.Keys - {k};
      CountWithout(ts, k, Done);
      CountWithout(ts, k, WaitingForBuilderSlot);
      CountWithout(ts, k, Building);
      CountWithout(ts, k, WaitingForParentTasks);
      CountWithout(ts, k, WaitingForExecutorSlot);
      CountWithout(ts, k, Executing);
      CountWithout(ts, k, Canceled);
      CountWithout(ts, k, Failed);
    }
  }

  /** The counting cascade of update_status. */
  function StatusFromStats(cancelationDate: Option<Time>, stats: TaskStats): PlanStatus {
    if cancelationDate.Some? || stats.canceledCount > 0 then PlanCanceled
    else if stats.taskCount == 0 || stats.waitingBuilderSlotCount == stats.taskCount then PlanCreated
    else if stats.doneCount == stats.taskCount then PlanDone
    else if stats.failedCount > 0 then PlanFailed
    else PlanDoing
  }

  /** The status a plan should have, from scratch: no counting, only what its tasks look like. */
  ghost predicate HasStatus(cancelationDate: Option<Time>, ts: PlanTasks, st: PlanStatus) {
    var canceled := cancelationDate.Some? || exists k :: k in ts && ts[k].status == Canceled;
    var untouched := forall k :: k in ts ==> ts[k].status == WaitingForBuilderSlot;
    var finished := forall k :: k in ts ==> ts[k].status == Done;
    var failed := exists k :: k in ts && ts[k].status == Failed;
    match st
    case PlanCanceled => canceled
    case PlanCreated => !canceled && untouched
    case PlanDone => !canceled && !untouched && finished
    case PlanFailed => !canceled && failed
    case PlanDoing => !canceled && !untouched && !finished && !failed
  }

  lemma CountsAll(ts: PlanTasks, st: TaskStatus)
    ensures |WithStatus(ts, st)| == |ts.Keys| <==> forall k :: k in ts ==> ts[k].status == st
    ensures |WithStatus(ts, st)| > 0 <==> exists k :: k in ts && ts[k].status == st
  {
    var chosen := WithStatus(ts, st);
    assert chosen <= ts.Keys;
    assert |ts.Keys| == |chosen| + |ts.Keys - chosen|;
    assert chosen == ts.Keys <==> forall k :: k in ts ==> ts[k].status == st;
    if k :| k in ts && ts[k].status == st {
      assert k in chosen;
    }
    if |chosen| > 0 {
      var k :| k in chosen;
    }
  }

  /** The counting cascade computes the from-scratch status, and that status is unique. */
  lemma StatusFromStatsCorrect(cancelationDate: Option<Time>, ts: PlanTasks, st: PlanStatus)
    ensures HasStatus(cancelationDate, ts, st) <==> st == StatusFromStats(cancelationDate, GetTaskStats(ts))
  {
    hide WithStatus;
    CountsAll(ts, Canceled);
    CountsAll(ts, WaitingForBuilderSlot);
    CountsAll(ts, Done);
    CountsAll(ts, Failed);
    if |ts.Keys| == 0 {
      assert ts.Keys == {};
    } else {
      var k :| k in ts.Keys;
    }
  }

  /* ---------- the two ordered queries ---------- */

  /** `filter(end_date__isnull=False).order_by("end_date").last()` */
  ghost predicate IsLatestEnd(ts: PlanTasks, latest: Option<Time>) {
    match latest
    case None => forall k :: k in ts ==> ts[k].endDate.None?
    case Some(t) =>
      && (exists k :: k in ts && ts[k].endDate == Some(t))
      && (forall k :: k in ts && ts[k].endDate.Some? ==> ts[k].endDate.value <= t)
  }

  /** `filter(end_date__isnull=False, status=FAILED).order_by("end_date").first()`; among equally early
      rows the database may return any. */
  ghost predicate IsFirstFailed(ts: PlanTasks, first: Option<Key>) {
    match first
    case None => forall k :: k in ts && ts[k].status == Failed ==> ts[k].endDate.None?
    case Some(f) =>
      && f in ts && ts[f].status == Failed && ts[f].endDate.Some?
      && (forall k :: k in ts && ts[k].status == Failed && ts[k].endDate.Some? ==>
            ts[f].endDate.value <= ts[k].endDate.value)
  }

  /** Some row of a non-empty set has the smallest end date. */
  lemma SomeEarliest(ts: PlanTasks, ks: set<Key>) returns (first: Key)
    requires ks != {} && (forall k :: k in ks ==> k in ts && ts[k].endDate.Some?)
    ensures first in ks && forall k :: k in ks ==> ts[first].endDate.value <= ts[k].endDate.value
    decreases |ks|
  {
    first :| first in ks;
    if ks != {first} {
      assert ks - {first} != {};
      var other := SomeEarliest(ts, ks - {first});
      if ts[other].endDate.value < ts[first].endDate.value {
        first := other;
      }
    }
  }

  lemma SomeLatest(ts: PlanTasks, ks: set<Key>) returns (last: Key)
    requires ks != {} && (forall k :: k in ks ==> k in ts && ts[k].endDate.Some?)
    ensures last in ks && forall k :: k in ks ==> ts[k].endDate.value <= ts[last].endDate.value
    decreases |ks|
  {
    last :| last in ks;
    if ks != {last} {
      assert ks - {last} != {};
      var other := SomeLatest(ts, ks - {last});
      if ts[last].endDate.value < ts[other].endDate.value {
        last := other;
      }
    }
  }

  function EndedTasks(ts: PlanTasks): set<Key> {
    set k | k in ts && ts[k].endDate.Some?
  }

  function EndedFailedTasks(ts: PlanTasks): set<Key> {
    set k | k in ts && ts[k].endDate.Some? && ts[k].status == Failed
  }

  lemma LatestEndExists(ts: PlanTasks)
    ensures exists latest :: IsLatestEnd(ts, latest)
  {
    if EndedTasks(ts) == {} {
      forall k | k in ts ensures ts[k].endDate.None? { assert k !in EndedTasks(ts); }
      assert IsLatestEnd(ts, None);
    } else {
      var k := SomeLatest(ts, EndedTasks(ts));
      forall j | j in ts && ts[j].endDate.Some? ensures ts[j].endDate.value <= ts[k].endDate.value {
        assert j in EndedTasks(ts);
      }
      assert IsLatestEnd(ts, ts[k].endDate);
    }
  }

  lemma FirstFailedExists(ts: PlanTasks)
    ensures exists first :: IsFirstFailed(ts, first)
  {
    var ks := EndedFailedTasks(ts);
    if ks == {} {
      forall k | k in ts && ts[k].status == Failed ensures ts[k].endDate.None? { assert k !in ks; }
      assert IsFirstFailed(ts, None);
    } else {
      var f := SomeEarliest(ts, ks);
      forall k | k in ts && ts[k].status == Failed && ts[k].endDate.Some?
        ensures ts[f].endDate.value <= ts[k].endDate.value
      {
        assert k in ks;
      }
      assert IsFirstFailed(ts, Some(f));
    }
  }

  ghost function LatestEnd(ts: PlanTasks): (latest: Option<Time>)
    ensures IsLatestEnd(ts, latest)
  {
    LatestEndExists(ts);
    var latest :| IsLatestEnd(ts, latest);
    latest
  }

  /** The row the database returned: `hint` whenever that is a possible answer. */
  ghost function FirstFailed(ts: PlanTasks, hint: Option<Key>): (first: Option<Key>)
    ensures IsFirstFailed(ts, first)
    ensures IsFirstFailed(ts, hint) ==> first == hint
  {
    if IsFirstFailed(ts, hint) then hint
    else
      FirstFailedExists(ts);
      var first :| IsFirstFailed(ts, first);
      first
  }

  /* ---------- update_end_date and update_status ---------- */

  predicate OngoingTasks(ts: PlanTasks) {
    exists k :: k in ts && ts[k].endDate.None?
  }

  predicate FailedOrCanceledTasks(ts: PlanTasks) {
    exists k :: k in ts && (ts[k].status == Failed || ts[k].status == Canceled)
  }

  ghost function UpdateEndDate(p: Plan, ts: PlanTasks): Plan {
    if p.cancelationDate.Some? then p.(endDate := p.cancelationDate)
    else if OngoingTasks(ts) && !FailedOrCanceledTasks(ts) then p.(endDate := None)
    else if LatestEnd(ts).Some? then p.(endDate := LatestEnd(ts))
    else p
  }

  ghost function UpdateStatus(p: Plan, ts: PlanTasks, now: Time, hint: Option<Key>): Plan {
    var st := StatusFromStats(p.cancelationDate, GetTaskStats(ts));
    p.(status := st,
       startDate := if st != PlanCreated && p.startDate.None? then Some(now) else p.startDate,
       failedTask := if st == PlanFailed && p.failedTask.None? then FirstFailed(ts, hint) else p.failedTask)
  }

  /** What every plan and task handler does last: end date first, then status. */
  ghost function Refresh(p: Plan, ts: PlanTasks, now: Time, hint: Option<Key>): Plan {
    UpdateStatus(UpdateEndDate(p, ts), ts, now, hint)
  }

  /* ---------- what a refreshed plan looks like ---------- */

  /** A task has an end date exactly when its status is terminal, and did not end before it started. */
  predicate TaskDates(t: Task) {
    && (Terminal(t.status) <==> t.endDate.Some?)
    && (t.startDate.Some? && t.endDate.Some? ==> t.startDate.value <= t.endDate.value)
  }

  ghost predicate EndDateMatchesStatus(p: Plan, ts: PlanTasks) {
    && (p.endDate.Some? <==> Ended(p.status))
    && (p.cancelationDate.Some? ==> p.endDate == p.cancelationDate)
    && (p.cancelationDate.None? && p.endDate.Some? ==> IsLatestEnd(ts, p.endDate))
  }

  /** The failed task, once known, is a FAILED task of the plan and none of the others ended earlier. */
  ghost predicate FailedTaskIsFirst(p: Plan, ts: PlanTasks) {
    && (p.status == PlanFailed ==> p.failedTask.Some?)
    && (p.failedTask.Some? ==> IsFirstFailed(ts, p.failedTask))
  }

  ghost predicate PlanMatchesTasks(p: Plan, ts: PlanTasks) {
    && HasStatus(p.cancelationDate, ts, p.status)
    && (p.status != PlanCreated ==> p.startDate.Some?)
    && EndDateMatchesStatus(p, ts)
    && FailedTaskIsFirst(p, ts)
  }

  /** Refreshing twice, at any later time and whatever row the database picks, changes nothing. */
  lemma RefreshIdempotent(p: Plan, ts: PlanTasks, now: Time, hint: Option<Key>, now': Time, hint': Option<Key>)
    ensures var once := Refresh(p, ts, now, hint);
            Refresh(once, ts, now', hint') == once
  {
  }

  /** After a refresh, for tasks with proper dates, the end date agrees with the status exactly when the
      plan is not an empty, uncanceled plan still carrying the end date of a withdrawn cancelation. */
  lemma RefreshEndDateExact(p: Plan, ts: PlanTasks, now: Time, hint: Option<Key>)
    requires forall k :: k in ts ==> TaskDates(ts[k])
    ensures EndDateMatchesStatus(Refresh(p, ts, now, hint), ts)
            <==> !(p.cancelationDate.None? && ts == map[] && p.endDate.Some?)
  {
    hide GetTaskStats, StatusFromStats, IsFirstFailed;
    var r := Refresh(p, ts, now, hint);
    StatusFromStatsCorrect(p.cancelationDate, ts, r.status);
    if p.cancelationDate.None? {
      if ts == map[] {
        assert IsLatestEnd(ts, LatestEnd(ts));
        assert !OngoingTasks(ts);
      } else {
        assert ts.Keys != {};
        var k :| k in ts;
        if r.status in {PlanCanceled, PlanDone, PlanFailed} {
          if r.status == PlanDone {
            assert ts[k].status == Done;
          }
        } else {
          if r.status == PlanCreated {
            assert ts[k].status == WaitingForBuilderSlot;
          } else {
            var j :| j in ts && ts[j].status != Done;
            assert ts[j].status !in {Failed, Canceled};
          }
          assert OngoingTasks(ts);
        }
      }
    }
  }

  lemma FailedPlanHasFirstFailed(cancelationDate: Option<Time>, ts: PlanTasks, hint: Option<Key>)
    requires HasStatus(cancelationDate, ts, PlanFailed)
    requires forall k :: k in ts ==> TaskDates(ts[k])
    ensures FirstFailed(ts, hint).Some?
  {
  }

  /** A refresh establishes everything a plan should say about its tasks. */
  lemma RefreshMatches(p: Plan, ts: PlanTasks, now: Time, hint: Option<Key>)
    requires forall k :: k in ts ==> TaskDates(ts[k])
    requires p.cancelationDate.None? && ts == map[] ==> p.endDate.None?
    requires p.failedTask.Some? ==> IsFirstFailed(ts, p.failedTask)
    ensures PlanMatchesTasks(Refresh(p, ts, now, hint), ts)
    ensures p.startDate.Some? ==> Refresh(p, ts, now, hint).startDate == p.startDate
    ensures p.failedTask.Some? ==> Refresh(p, ts, now, hint).failedTask == p.failedTask
  {
    hide HasStatus, EndDateMatchesStatus, IsFirstFailed, OngoingTasks, FailedOrCanceledTasks, IsLatestEnd,
      GetTaskStats;
    var r := Refresh(p, ts, now, hint);
    RefreshEndDateExact(p, ts, now, hint);
    StatusFromStatsCorrect(p.cancelationDate, ts, r.status);
    if r.status == PlanFailed && p.failedTask.None? {
      FailedPlanHasFirstFailed(p.cancelationDate, ts, hint);
    }
  }
}
