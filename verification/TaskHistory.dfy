/** Consequences of the event handlers over whole streams: when a task's dates were written, when a plan
    restarts, and what a withdrawn cancelation leaves behind. */
module TaskHistory {
  import opened Common
  import opened Rows
  import opened ComputePlans
  import opened TaskLinks
  import opened EventSync
  import opened StreamInvariants

  /** The timestamp of the first update of task `k` to a status in `statuses`. */
  function FirstUpdate(ds: seq<Delivery>, k: Key, statuses: set<TaskStatus>): Option<Time> {
    if ds == [] then None
    else
      var earlier := FirstUpdate(ds[..|ds| - 1], k, statuses);
      var e := ds[|ds| - 1].event;
      if earlier.Some? then earlier
      else if e.UpdateTask? && e.key == k && e.status in statuses then Some(e.timestamp)
      else None
  }

  /** What event `e` makes of the dates of task `k`. */
  predicate DatesMove(before: Task, after: Task, e: Event, k: Key) {
    var now := e.UpdateTask? && e.key == k;
    && after.startDate == (if before.startDate.None? && now && e.status == Executing then Some(e.timestamp)
                           else before.startDate)
    && after.endDate == (if before.endDate.None? && now && Terminal(e.status) then Some(e.timestamp)
                         else before.endDate)
  }

  lemma UpdateDates(db: Db, d: Delivery, k: Key)
    requires Apply(db, d).Ok? && d.event.UpdateTask?
    ensures Apply(db, d).value.tasks.Keys == db.tasks.Keys
    ensures k in db.tasks ==> DatesMove(db.tasks[k], Apply(db, d).value.tasks[k], d.event, k)
  {
    hide Refresh, SyncCreatePlan, SyncUpdatePlan, RegisterTask, InsertOutputAsset, ReportFailure, UpdatedFunction;
  }

  lemma ReportDates(db: Db, d: Delivery, k: Key)
    requires Apply(db, d).Ok? && d.event.CreateFailureReport?
    ensures Apply(db, d).value.tasks.Keys == db.tasks.Keys
    ensures k in db.tasks ==> DatesMove(db.tasks[k], Apply(db, d).value.tasks[k], d.event, k)
  {
    hide SyncCreatePlan, SyncUpdatePlan, SyncUpdateTask, RegisterTask, InsertOutputAsset, UpdatedFunction;
  }

  lemma CreationDates(db: Db, d: Delivery, k: Key)
    requires Apply(db, d).Ok? && d.event.CreateTask? && k in Apply(db, d).value.tasks
    ensures if k in db.tasks then Apply(db, d).value.tasks[k] == db.tasks[k]
            else Apply(db, d).value.tasks[k].startDate == None && Apply(db, d).value.tasks[k].endDate == None
  {
    hide Refresh, SyncCreatePlan, SyncUpdatePlan, SyncUpdateTask, InsertTask, InsertOutputAsset, ReportFailure,
      UpdatedFunction;
  }

  lemma OtherDates(db: Db, d: Delivery)
    requires Apply(db, d).Ok? && !d.event.UpdateTask? && !d.event.CreateFailureReport? && !d.event.CreateTask?
    ensures Apply(db, d).value.tasks == db.tasks
  {
    hide Refresh, SyncUpdateTask, RegisterTask, InsertOutputAsset, ReportFailure, UpdatedFunction;
  }

  /** What one event does to the dates of a task. */
  lemma DatesStep(db: Db, d: Delivery, k: Key)
    requires Apply(db, d).Ok? && k in Apply(db, d).value.tasks
    ensures var after, e := Apply(db, d).value.tasks[k], d.event;
            if k !in db.tasks then after.startDate == None && after.endDate == None && e.CreateTask?
            else DatesMove(db.tasks[k], after, e, k)
  {
    hide Apply;
    if d.event.UpdateTask? {
      UpdateDates(db, d, k);
    } else if d.event.CreateFailureReport? {
      ReportDates(db, d, k);
    } else if d.event.CreateTask? {
      CreationDates(db, d, k);
    } else {
      OtherDates(db, d);
    }
  }

  lemma TasksStay(db: Db, d: Delivery)
    requires Apply(db, d).Ok?
    ensures db.tasks.Keys <= Apply(db, d).value.tasks.Keys
    ensures d.event.UpdateTask? ==> d.event.key in db.tasks
  {
    hide Refresh, InsertTask, InsertOutputAsset;
  }

  lemma {:induction false} NoUpdateBeforeCreation(db: Db, ds: seq<Delivery>, k: Key, statuses: set<TaskStatus>)
    requires Run(db, ds).Ok? && k !in Run(db, ds).value.tasks
    ensures k !in db.tasks && FirstUpdate(ds, k, statuses) == None
    decreases |ds|
  {
    hide Apply;
    if ds != [] {
      TasksStay(Run(db, ds[..|ds| - 1]).value, ds[|ds| - 1]);
      NoUpdateBeforeCreation(db, ds[..|ds| - 1], k, statuses);
    }
  }

  /** Over any stream at all, a task created by it started at its first EXECUTING update and ended at its
      first terminal one. */
  lemma {:induction false} DatesAreFirstUpdates(db: Db, ds: seq<Delivery>, k: Key)
    requires Run(db, ds).Ok? && k !in db.tasks && k in Run(db, ds).value.tasks
    ensures Run(db, ds).value.tasks[k].startDate == FirstUpdate(ds, k, {Executing})
    ensures Run(db, ds).value.tasks[k].endDate == FirstUpdate(ds, k, {Done, Canceled, Failed})
    decreases |ds|
  {
    hide Apply;
    var before, d := ds[..|ds| - 1], ds[|ds| - 1];
    var mid := Run(db, before).value;
    DatesStep(mid, d, k);
    if k in mid.tasks {
      DatesAreFirstUpdates(db, before, k);
    } else {
      NoUpdateBeforeCreation(db, before, k, {Executing});
      NoUpdateBeforeCreation(db, before, k, {Done, Canceled, Failed});
    }
  }

  /** After any well-formed stream into an empty database, every task of the stream that is DONE, FAILED or
      CANCELED, and no other, has an end date, and none ended before it started. */
  lemma TaskDatesAfterStream(ds: seq<Delivery>, clock: Time, k: Key)
    requires WellFormedStream(EMPTY, ds, clock)
    ensures Run(EMPTY, ds).Ok?
    ensures k in Run(EMPTY, ds).value.tasks ==>
              var t := Run(EMPTY, ds).value.tasks[k];
              && (Terminal(t.status) <==> t.endDate.Some?)
              && (t.startDate.Some? && t.endDate.Some? ==> t.startDate.value <= t.endDate.value)
              && t.startDate == FirstUpdate(ds, k, {Executing})
              && t.endDate == FirstUpdate(ds, k, {Done, Canceled, Failed})
  {
    hide PlansSound, LinksSound, KindsSound, Apply;
    EmptyIsSound(clock);
    WellFormedStreamSound(EMPTY, ds, clock);
    if k in Run(EMPTY, ds).value.tasks {
      DatesAreFirstUpdates(EMPTY, ds, k);
    }
  }

  /** After any well-formed stream into an empty database: the status is the from-scratch one, the end date
      is there exactly for ended plans and is the latest task end unless the plan was canceled, and a FAILED
      plan names a FAILED task with the smallest end date. */
  lemma PlansAfterStream(ds: seq<Delivery>, clock: Time, plan: Key)
    requires WellFormedStream(EMPTY, ds, clock)
    ensures Run(EMPTY, ds).Ok?
    ensures plan in Run(EMPTY, ds).value.plans ==>
              var db := Run(EMPTY, ds).value;
              var p, ts := db.plans[plan], ComputeTasks(db.tasks, plan);
              && HasStatus(p.cancelationDate, ts, p.status)
              && p.status == StatusFromStats(p.cancelationDate, GetTaskStats(ts))
              && (p.status != PlanCreated ==> p.startDate.Some?)
              && (p.endDate.Some? <==> p.status in {PlanDone, PlanFailed, PlanCanceled})
              && (p.status in {PlanDone, PlanFailed} ==> IsLatestEnd(ts, p.endDate))
              && (p.status == PlanFailed ==> p.failedTask.Some? && IsFirstFailed(ts, p.failedTask))
  {
    hide HasStatus, GetTaskStats, IsLatestEnd, IsFirstFailed, LinksSound, KindsSound, TasksSound, Apply;
    EmptyIsSound(clock);
    WellFormedStreamSound(EMPTY, ds, clock);
    if plan in Run(EMPTY, ds).value.plans {
      var db := Run(EMPTY, ds).value;
      var p, ts := db.plans[plan], ComputeTasks(db.tasks, plan);
      assert PlanMatchesTasks(p, ts);
      StatusFromStatsCorrect(p.cancelationDate, ts, p.status);
    }
  }

  /** After any well-formed stream into an empty database, a directly keyed input is resolved to its own key,
      and an input that names a parent output is resolved exactly when that output has an asset, to the same
      key and, when the declared kind agrees with the asset's, the same kind. */
  lemma JoinAfterStream(ds: seq<Delivery>, clock: Time, id: InputId)
    requires WellFormedStream(EMPTY, ds, clock)
    ensures Run(EMPTY, ds).Ok?
    ensures id in Run(EMPTY, ds).value.links.inputs ==>
              var db := Run(EMPTY, ds).value;
              var l := db.links;
              match l.inputs[id].source
              case Direct(key) =>
                id in l.inputAssets && l.inputAssets[id].key == key
                    && DeclaredKind(db, id) == Some(l.inputAssets[id].kind)
              case FromParent(task, output) =>
                var assets := AssetsOf(l, OutputId(task, output));
                && |assets| <= 1
                && (id in l.inputAssets <==> |assets| == 1)
                && (id in l.inputAssets ==>
                      && l.inputAssets[id].key == assets[0].key
                      && (DeclaredKind(db, id) == Some(assets[0].kind) ==> l.inputAssets[id] == assets[0]))
              case Unbound => id !in l.inputAssets
  {
    hide PlansSound, TasksSound, Apply;
    EmptyIsSound(clock);
    WellFormedStreamSound(EMPTY, ds, clock);
    var db := Run(EMPTY, ds).value;
    if id in db.links.inputs {
      assert Materialised(db.links, id);
      if id in db.links.inputAssets {
        assert SoundKind(db, id);
      }
    }
  }

  /** What is set is never changed: between two moments of a well-formed stream, start dates, first failed
      tasks and task dates only appear. */
  lemma {:induction false} FirstsStay(db: Db, ds: seq<Delivery>, clock: Time, n: nat)
    requires Sound(db, clock) && WellFormedStream(db, ds, clock) && n <= |ds|
    ensures Run(db, ds[..n]).Ok? && Run(db, ds).Ok?
    ensures KeepsPlanFirsts(Run(db, ds[..n]).value.plans, Run(db, ds).value.plans)
    ensures KeepsTaskDates(Run(db, ds[..n]).value.tasks, Run(db, ds).value.tasks)
    decreases |ds|
  {
    hide Apply, PlansSound, TasksSound, LinksSound, KindsSound, WellFormed;
    WellFormedStreamSound(db, ds, clock);
    if n == |ds| {
      assert ds[..n] == ds;
    } else {
      var before := ds[..|ds| - 1];
      assert before[..n] == ds[..n];
      FirstsStay(db, before, clock, n);
      WellFormedStreamSound(db, before, clock);
      WellFormedEventSound(Run(db, before).value, ds[|ds| - 1], ClockAfter(before, clock));
    }
  }

  /** A DONE plan that gets one more task is DOING again and has no end date. */
  lemma NewTaskRestartsDonePlan(db: Db, d: Delivery, clock: Time)
    requires Sound(db, clock) && d.event.CreateTask? && WellFormed(db, d.event, clock)
    requires d.event.key !in db.tasks && db.plans[d.event.plan].status == PlanDone
    ensures Apply(db, d).Ok?
    ensures var p := Apply(db, d).value.plans[d.event.plan];
            p.status == PlanDoing && p.endDate == None && p.startDate == db.plans[d.event.plan].startDate
  {
    hide LinksSound, KindsSound, InsertTask, GetTaskStats, TasksSound, KeepsTaskDates, IsFirstFailed, IsLatestEnd,
      SyncCreatePlan, SyncUpdatePlan, SyncUpdateTask, InsertOutputAsset, ReportFailure, HasStatus;
    var e := d.event;
    CreateTaskRegisters(db, e, clock);
    WellFormedEventSound(db, d, clock);
    var db' := Apply(db, d).value;
    var ts, ts' := ComputeTasks(db.tasks, e.plan), ComputeTasks(db'.tasks, e.plan);
    SamePlanTasks(db.tasks, e.key, NewTask(e));
    assert ts' == ts[e.key := NewTask(e)];
    assert PlanMatchesTasks(db.plans[e.plan], ts);
    assert PlanMatchesTasks(db'.plans[e.plan], ts');
    OneMoreTaskAfterDone(db.plans[e.plan].cancelationDate, ts, e.key, NewTask(e), db'.plans[e.plan].status);
  }

  lemma OneMoreTaskAfterDone(cancelationDate: Option<Time>, ts: PlanTasks, k: Key, t: Task, st: PlanStatus)
    requires HasStatus(cancelationDate, ts, PlanDone) && k !in ts && !Terminal(t.status)
    requires HasStatus(cancelationDate, ts[k := t], st)
    ensures st == PlanDoing
  {
    var j :| j in ts && ts[j].status != WaitingForBuilderSlot;
    assert ts[k := t][j].status == Done;
    assert ts[k := t][k] == t;
  }

  /** Withdrawing a cancelation, which the stream hypotheses exclude, leaves the end date in agreement with
      the status exactly when the plan has tasks: an empty plan keeps the date of the cancelation. */
  lemma WithdrawnCancelation(db: Db, d: Delivery, clock: Time)
    requires Sound(db, clock) && d.event.UpdatePlan? && d.event.key in db.plans
    requires db.plans[d.event.key].cancelationDate.Some? && d.event.cancelationDate.None?
    ensures Apply(db, d).Ok?
    ensures var after := Apply(db, d).value;
            EndDateMatchesStatus(after.plans[d.event.key], ComputeTasks(after.tasks, d.event.key))
            <==> exists k :: k in db.tasks && db.tasks[k].plan == d.event.key
  {
    hide Refresh, LinksSound, KindsSound, EndDateMatchesStatus;
    var e := d.event;
    var p := db.plans[e.key];
    var ts := ComputeTasks(db.tasks, e.key);
    assert PlanMatchesTasks(p, ts);
    CanceledHasEndDate(p, ts);
    RefreshEndDateExact(p.(name := e.name, cancelationDate := None), ts, d.now, d.hint);
    assert ts == map[] <==> !exists k :: k in db.tasks && db.tasks[k].plan == e.key by {
      if k :| k in db.tasks && db.tasks[k].plan == e.key {
        assert k in ts;
      }
    }
  }

  lemma CanceledHasEndDate(p: Plan, ts: PlanTasks)
    requires EndDateMatchesStatus(p, ts) && p.cancelationDate.Some?
    ensures p.endDate.Some?
  {
  }

  /** The tasks a failure report is about: one task, or all tasks of a function that could not be built. */
  predicate Reported(db: Db, e: Event, k: Key)
    requires e.CreateFailureReport? && k in db.tasks
  {
    if e.onFunction then db.tasks[k].function_ == e.key else k == e.key
  }

  /** A failure report is refused exactly when logs or their owner are missing or its task is unknown; the
      first report of an asset is the one kept. */
  lemma FailureReportKept(db: Db, e: Event)
    requires e.CreateFailureReport?
    ensures ReportFailure(db, e).Ok? <==>
            (e.errorType == InternalError || (e.logs.Some? && e.owner.Some?)) && (e.onFunction || e.key in db.tasks)
    ensures ReportFailure(db, e).Ok? ==>
              var after := ReportFailure(db, e).value;
              && after == db.(tasks := after.tasks, reports := after.reports)
              && after.reports == if e.errorType == InternalError || e.key in db.reports then db.reports
                                  else db.reports[e.key := FailureReport(e.logs.value, e.owner.value)]
  {
    hide FailTasks, FailedTask;
  }

  /** The first report on an asset that a stream sends, internal errors aside. */
  function FirstReport(ds: seq<Delivery>, k: Key): Option<FailureReport> {
    if ds == [] then None
    else
      var earlier := FirstReport(ds[..|ds| - 1], k);
      var e := ds[|ds| - 1].event;
      if earlier.Some? then earlier
      else if e.CreateFailureReport? && e.key == k && e.errorType != InternalError && e.logs.Some? && e.owner.Some?
      then Some(FailureReport(e.logs.value, e.owner.value))
      else None
  }

  function ReportOf(db: Db, k: Key): Option<FailureReport> {
    if k in db.reports then Some(db.reports[k]) else None
  }

  lemma OtherEventKeepsReports(db: Db, d: Delivery)
    requires Apply(db, d).Ok? && !d.event.CreateFailureReport?
    ensures Apply(db, d).value.reports == db.reports
  {
    hide Refresh, InsertTask, InsertOutputAsset, UpdatedFunction, UpdatedTask;
  }

  /** Over any stream at all, the report kept on an asset is the first one sent, internal errors aside: later
      reports and replays do not replace it. */
  lemma {:induction false} ReportsAreFirst(db: Db, ds: seq<Delivery>, k: Key)
    requires Run(db, ds).Ok? && k !in db.reports
    ensures ReportOf(Run(db, ds).value, k) == FirstReport(ds, k)
    decreases |ds|
  {
    hide Apply;
    if ds != [] {
      var before, d := ds[..|ds| - 1], ds[|ds| - 1];
      var mid := Run(db, before).value;
      ReportsAreFirst(db, before, k);
      if d.event.CreateFailureReport? {
        ReportApplies(mid, d);
        FailureReportKept(mid, d.event);
      } else {
        OtherEventKeepsReports(mid, d);
      }
    }
  }

  lemma ReportApplies(db: Db, d: Delivery)
    requires d.event.CreateFailureReport?
    ensures Apply(db, d) == ReportFailure(db, d.event)
  {
  }

  /** The task carries the error of the report; logs and owner only when the report has them. */
  predicate CarriesReport(before: Task, after: Task, e: Event)
    requires e.CreateFailureReport?
  {
    && after == before.(failure := after.failure)
    && after.failure.errorType == Some(e.errorType)
    && after.failure.logs == (if e.logs.Some? then e.logs else before.failure.logs)
    && after.failure.logsOwner == (if e.owner.Some? then e.owner else before.failure.logsOwner)
  }

  lemma FailedTaskCarries(t: Task, e: Event)
    requires e.CreateFailureReport?
    ensures CarriesReport(t, FailedTask(t, e.errorType, e.logs, e.owner), e)
  {
  }

  /** A failure report is carried by exactly the tasks it is about. */
  lemma FailureReportWritten(db: Db, e: Event, k: Key)
    requires e.CreateFailureReport? && k in db.tasks && ReportFailure(db, e).Ok?
    ensures var after := ReportFailure(db, e).value.tasks;
            && after.Keys == db.tasks.Keys
            && if Reported(db, e, k) then CarriesReport(db.tasks[k], after[k], e) else after[k] == db.tasks[k]
  {
    hide FailedTask, CarriesReport;
    FailedTaskCarries(db.tasks[k], e);
  }

  /** The error of the last report about a task, since the task is there. */
  ghost function LastError(db: Db, ds: seq<Delivery>, k: Key): Option<ErrorType>
    requires Run(db, ds).Ok?
  {
    if ds == [] then None
    else
      var before, e := ds[..|ds| - 1], ds[|ds| - 1].event;
      var mid := Run(db, before).value;
      if e.CreateFailureReport? && k in mid.tasks && Reported(mid, e, k) then Some(e.errorType)
      else LastError(db, before, k)
  }

  lemma OtherEventKeepsErrors(db: Db, d: Delivery, k: Key)
    requires Apply(db, d).Ok? && !d.event.CreateFailureReport? && k in Apply(db, d).value.tasks
    ensures Apply(db, d).value.tasks[k].failure.errorType
        == if k in db.tasks then db.tasks[k].failure.errorType else None
  {
    hide Refresh, InsertTask, InsertOutputAsset, UpdatedFunction;
  }

  lemma {:induction false} NoErrorBeforeCreation(db: Db, ds: seq<Delivery>, k: Key)
    requires Run(db, ds).Ok? && k !in Run(db, ds).value.tasks
    ensures LastError(db, ds, k) == None
    decreases |ds|
  {
    hide Apply;
    if ds != [] {
      TasksStay(Run(db, ds[..|ds| - 1]).value, ds[|ds| - 1]);
      NoErrorBeforeCreation(db, ds[..|ds| - 1], k);
    }
  }

  /** Over any stream at all, a task created by it carries the error of the last report about it or about its
      function. */
  lemma {:induction false} ErrorsAreLast(db: Db, ds: seq<Delivery>, k: Key)
    requires Run(db, ds).Ok? && k !in db.tasks && k in Run(db, ds).value.tasks
    ensures Run(db, ds).value.tasks[k].failure.errorType == LastError(db, ds, k)
    decreases |ds|
  {
    hide Apply, Reported, CarriesReport;
    var before, d := ds[..|ds| - 1], ds[|ds| - 1];
    var mid := Run(db, before).value;
    if k in mid.tasks {
      ErrorsAreLast(db, before, k);
    } else {
      NoErrorBeforeCreation(db, before, k);
    }
    if d.event.CreateFailureReport? {
      ReportApplies(mid, d);
      ReportedTask(mid, d.event, k);
    } else {
      OtherEventKeepsErrors(mid, d, k);
    }
  }

  lemma ReportedTask(db: Db, e: Event, k: Key)
    requires e.CreateFailureReport? && ReportFailure(db, e).Ok?
    ensures k in ReportFailure(db, e).value.tasks <==> k in db.tasks
    ensures k in db.tasks ==>
              ReportFailure(db, e).value.tasks[k].failure.errorType
              == if Reported(db, e, k) then Some(e.errorType) else db.tasks[k].failure.errorType
  {
    hide ReportFailure, Reported;
    FailureReportTasksStay(db, e);
    if k in db.tasks {
      FailureReportWritten(db, e, k);
    }
  }

  lemma FailureReportTasksStay(db: Db, e: Event)
    requires e.CreateFailureReport? && ReportFailure(db, e).Ok?
    ensures ReportFailure(db, e).value.tasks.Keys == db.tasks.Keys
  {
  }
}
