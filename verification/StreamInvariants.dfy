/** What holds of the local database after every event of a well-formed stream. */
module StreamInvariants {
  import opened Common
  import opened Rows
  import opened ComputePlans
  import opened TaskLinks
  import opened EventSync

  /* ---------- stream hypotheses ---------- */

  /** An input row names a declared identifier and, if any, an existing output of a parent task. */
  predicate RegistrableInput(db: Db, row: InputRow, kinds: map<Ident, AssetKind>) {
    && row.identifier in kinds
    && (row.source.FromParent? ==>
          row.source.task in db.tasks && OutputId(row.source.task, row.source.output) in db.links.outputs)
  }

  /** What the orchestrator guarantees of the next event, `clock` being the last task update's timestamp:
      assets come after what they refer to, tasks start non-terminal, terminal statuses are absorbing, a
      task stays in its plan, an output has one asset, cancelations are not withdrawn and timestamps do
      not decrease. */
  ghost predicate WellFormed(db: Db, e: Event, clock: Time) {
    match e
    case CreatePlan(_, _, _) => true
    case UpdatePlan(key, _, cancelationDate) =>
      key in db.plans && (db.plans[key].cancelationDate.Some? ==> cancelationDate.Some?)
    case CreateTask(key, _, plan, function_, status, inputs, _) =>
      && plan in db.plans && function_ in db.functions && Parents(inputs) <= db.tasks.Keys
      && (key in db.tasks ==> db.tasks[key].plan == plan)
      && (key !in db.tasks ==>
            && !Terminal(status)
            && forall i :: 0 <= i < |inputs| ==> RegistrableInput(db, inputs[i], db.functions[function_].inputKinds))
    case UpdateTask(key, plan, status, timestamp) =>
      && key in db.tasks && db.tasks[key].plan == plan && clock <= timestamp
      && (Terminal(db.tasks[key].status) ==> status == db.tasks[key].status)
    case CreateOutputAsset(channel, output, _) =>
      output in db.links.outputs && db.links.outputs[output] == channel && AssetsOf(db.links, output) == []
    case CreateFunction(_, _) => true
    case UpdateFunction(key, _, _, _, _) => key in db.functions
    case CreateModel(_, task, _) => task in db.tasks
    case DisableModel(key) => key in db.models
    case CreateFailureReport(key, onFunction, errorType, logs, owner) =>
      (errorType != InternalError ==> logs.Some? && owner.Some?) && (!onFunction ==> key in db.tasks)
    case NothingToSync => true
  }

  function Clock(clock: Time, e: Event): Time {
    if e.UpdateTask? then e.timestamp else clock
  }

  ghost predicate WellFormedStream(db: Db, ds: seq<Delivery>, clock: Time)
    decreases |ds|
  {
    ds != [] ==>
      var before := ds[..|ds| - 1];
      && WellFormedStream(db, before, clock)
      && (Run(db, before).Ok? ==> WellFormed(Run(db, before).value, ds[|ds| - 1].event, ClockAfter(before, clock)))
  }

  function ClockAfter(ds: seq<Delivery>, clock: Time): Time {
    if ds == [] then clock else Clock(ClockAfter(ds[..|ds| - 1], clock), ds[|ds| - 1].event)
  }

  /* ---------- the invariant ---------- */

  predicate DatedBy(t: Task, clock: Time) {
    && (t.startDate.Some? ==> t.startDate.value <= clock)
    && (t.endDate.Some? ==> t.endDate.value <= clock)
  }

  ghost predicate TasksSound(db: Db, clock: Time) {
    forall k :: k in db.tasks ==>
      && db.tasks[k].plan in db.plans
      && db.tasks[k].function_ in db.functions
      && TaskDates(db.tasks[k])
      && DatedBy(db.tasks[k], clock)
  }

  ghost predicate PlansSound(db: Db) {
    forall p :: p in db.plans ==> PlanMatchesTasks(db.plans[p], ComputeTasks(db.tasks, p))
  }

  ghost predicate LinksSound(db: Db) {
    && Joined(db.links)
    && (forall id :: id in db.links.inputs ==> id.task in db.tasks)
    && (forall out :: out in db.links.outputs ==> out.task in db.tasks)
  }

  /** The kind that the function of an input's task declares for it. */
  function DeclaredKind(db: Db, id: InputId): Option<AssetKind> {
    if id in db.links.inputs && id.task in db.tasks && db.tasks[id.task].function_ in db.functions then
      var kinds := db.functions[db.tasks[id.task].function_].inputKinds;
      var identifier := db.links.inputs[id].identifier;
      if identifier in kinds then Some(kinds[identifier]) else None
    else None
  }

  /** A resolved asset has the declared kind, or the kind of the parent's output asset: the same kind
      whenever these two agree. */
  predicate SoundKind(db: Db, id: InputId)
    requires id in db.links.inputs && id in db.links.inputAssets
  {
    var kind := db.links.inputAssets[id].kind;
    || DeclaredKind(db, id) == Some(kind)
    || match db.links.inputs[id].source
       case FromParent(task, output) =>
         AssetsOf(db.links, OutputId(task, output)) != [] && AssetsOf(db.links, OutputId(task, output))[0].kind == kind
       case _ => false
  }

  ghost predicate KindsSound(db: Db) {
    forall id :: id in db.links.inputs && id in db.links.inputAssets ==> SoundKind(db, id)
  }

  ghost predicate Sound(db: Db, clock: Time) {
    TasksSound(db, clock) && PlansSound(db) && LinksSound(db) && KindsSound(db)
  }

  const EMPTY := Db(map[], map[], map[], map[], map[], Links(map[], map[], map[], map[]))

  /** A plan's start date and first failed task are set once and never again. */
  ghost predicate KeepsPlanFirsts(plans: map<Key, Plan>, plans': map<Key, Plan>) {
    forall p :: p in plans ==>
      && p in plans'
      && (plans[p].startDate.Some? ==> plans'[p].startDate == plans[p].startDate)
      && (plans[p].failedTask.Some? ==> plans'[p].failedTask == plans[p].failedTask)
  }

  /** So are the dates of a task. */
  ghost predicate KeepsTaskDates(tasks: map<Key, Task>, tasks': map<Key, Task>) {
    forall k :: k in tasks ==>
      && k in tasks'
      && (tasks[k].startDate.Some? ==> tasks'[k].startDate == tasks[k].startDate)
      && (tasks[k].endDate.Some? ==> tasks'[k].endDate == tasks[k].endDate)
  }

  /* ---------- refreshing one plan ---------- */

  ghost predicate PlansSoundExcept(db: Db, plan: Key) {
    forall q :: q in db.plans && q != plan ==> PlanMatchesTasks(db.plans[q], ComputeTasks(db.tasks, q))
  }

  /** A refresh repairs its plan and leaves the others alone. */
  lemma RefreshPlanSound(db: Db, plan: Key, now: Time, hint: Option<Key>)
    requires plan in db.plans && PlansSoundExcept(db, plan)
    requires var p, ts := db.plans[plan], ComputeTasks(db.tasks, plan);
             && (forall k :: k in ts ==> TaskDates(ts[k]))
             && (p.cancelationDate.None? && ts == map[] ==> p.endDate.None?)
             && (p.failedTask.Some? ==> IsFirstFailed(ts, p.failedTask))
    ensures PlansSound(RefreshPlan(db, plan, now, hint))
    ensures KeepsPlanFirsts(db.plans, RefreshPlan(db, plan, now, hint).plans)
  {
    hide Refresh, PlanMatchesTasks, IsFirstFailed;
    RefreshMatches(db.plans[plan], ComputeTasks(db.tasks, plan), now, hint);
  }

  lemma NoTasksNoEndDate(p: Plan, ts: PlanTasks)
    requires PlanMatchesTasks(p, ts)
    ensures p.cancelationDate.None? && ts == map[] ==> p.endDate.None?
  {
  }

  lemma OtherPlansSameTasks(tasks: map<Key, Task>, k: Key, t: Task, q: Key)
    requires t.plan != q && (k in tasks ==> tasks[k].plan != q)
    ensures ComputeTasks(tasks[k := t], q) == ComputeTasks(tasks, q)
  {
  }

  lemma SamePlanTasks(tasks: map<Key, Task>, k: Key, t: Task)
    ensures ComputeTasks(tasks[k := t], t.plan) == ComputeTasks(tasks, t.plan)[k := t]
  {
  }

  /** A task event: one task row of the plan is inserted or updated, then the plan is refreshed. */
  lemma TaskWriteSound(db: Db, k: Key, t: Task, now: Time, hint: Option<Key>)
    requires PlansSound(db) && t.plan in db.plans
    requires forall j :: j in db.tasks ==> TaskDates(db.tasks[j])
    requires TaskDates(t) && (k in db.tasks ==> db.tasks[k].plan == t.plan)
    requires var f := db.plans[t.plan].failedTask;
             f.Some? ==> IsFirstFailed(ComputeTasks(db.tasks, t.plan)[k := t], f)
    ensures var saved := db.(tasks := db.tasks[k := t]);
            && PlansSound(RefreshPlan(saved, t.plan, now, hint))
            && KeepsPlanFirsts(db.plans, RefreshPlan(saved, t.plan, now, hint).plans)
  {
    var saved := db.(tasks := db.tasks[k := t]);
    SamePlanTasks(db.tasks, k, t);
    forall q | q in saved.plans && q != t.plan
      ensures PlanMatchesTasks(saved.plans[q], ComputeTasks(saved.tasks, q))
    {
      OtherPlansSameTasks(db.tasks, k, t, q);
    }
    assert k in ComputeTasks(saved.tasks, t.plan);
    RefreshPlanSound(saved, t.plan, now, hint);
  }

  /* ---------- plans ---------- */

  lemma CreatePlanKeepsPlans(db: Db, key: Key, channel: Channel, name: string, clock: Time)
    requires TasksSound(db, clock) && PlansSound(db)
    ensures PlansSound(SyncCreatePlan(db, key, channel, name))
    ensures KeepsPlanFirsts(db.plans, SyncCreatePlan(db, key, channel, name).plans)
  {
    if key !in db.plans {
      assert ComputeTasks(db.tasks, key) == map[];
      assert PlanMatchesTasks(NewPlan(channel, name), map[]);
    }
  }

  lemma SamePlanFirsts(plans: map<Key, Plan>, key: Key, p: Plan, plans': map<Key, Plan>)
    requires key in plans && p.startDate == plans[key].startDate && p.failedTask == plans[key].failedTask
    requires KeepsPlanFirsts(plans[key := p], plans')
    ensures KeepsPlanFirsts(plans, plans')
  {
  }

  lemma UpdatePlanKeepsPlans(db: Db, key: Key, name: string, cancelationDate: Option<Time>, now: Time,
                             hint: Option<Key>, clock: Time)
    requires TasksSound(db, clock) && PlansSound(db) && key in db.plans
    requires db.plans[key].cancelationDate.Some? ==> cancelationDate.Some?
    ensures PlansSound(SyncUpdatePlan(db, key, name, cancelationDate, now, hint))
    ensures KeepsPlanFirsts(db.plans, SyncUpdatePlan(db, key, name, cancelationDate, now, hint).plans)
  {
    hide Refresh, HasStatus, EndDateMatchesStatus, IsFirstFailed, KeepsPlanFirsts;
    var p := db.plans[key].(name := name, cancelationDate := cancelationDate);
    var ts := ComputeTasks(db.tasks, key);
    assert PlanMatchesTasks(db.plans[key], ts);
    NoTasksNoEndDate(db.plans[key], ts);
    RefreshPlanSound(db.(plans := db.plans[key := p]), key, now, hint);
    SamePlanFirsts(db.plans, key, p, SyncUpdatePlan(db, key, name, cancelationDate, now, hint).plans);
  }

  lemma CreateTaskKeepsPlans(db: Db, key: Key, t: Task, now: Time, hint: Option<Key>, clock: Time)
    requires TasksSound(db, clock) && PlansSound(db) && t.plan in db.plans && key !in db.tasks
    requires !Terminal(t.status) && t.startDate.None? && t.endDate.None?
    ensures var saved := db.(tasks := db.tasks[key := t]);
            && PlansSound(RefreshPlan(saved, t.plan, now, hint))
            && KeepsPlanFirsts(db.plans, RefreshPlan(saved, t.plan, now, hint).plans)
  {
    assert PlanMatchesTasks(db.plans[t.plan], ComputeTasks(db.tasks, t.plan));
    TaskWriteSound(db, key, t, now, hint);
  }

  lemma ReplayedTaskKeepsPlans(db: Db, plan: Key, now: Time, hint: Option<Key>, clock: Time)
    requires TasksSound(db, clock) && PlansSound(db) && plan in db.plans
    ensures PlansSound(RefreshPlan(db, plan, now, hint))
    ensures KeepsPlanFirsts(db.plans, RefreshPlan(db, plan, now, hint).plans)
  {
    assert PlanMatchesTasks(db.plans[plan], ComputeTasks(db.tasks, plan));
    NoTasksNoEndDate(db.plans[plan], ComputeTasks(db.tasks, plan));
    RefreshPlanSound(db, plan, now, hint);
  }

  /** The update of a task row that the stream hypotheses allow. */
  predicate TaskMayBecome(t: Task, status: TaskStatus, timestamp: Time, clock: Time) {
    clock <= timestamp && (Terminal(t.status) ==> status == t.status)
  }

  /** A task that fails now does not end before one that failed earlier. */
  lemma FirstFailureStays(ts: PlanTasks, first: Key, k: Key, status: TaskStatus, timestamp: Time, clock: Time)
    requires forall j :: j in ts ==> TaskDates(ts[j]) && DatedBy(ts[j], clock)
    requires k in ts && TaskMayBecome(ts[k], status, timestamp, clock) && IsFirstFailed(ts, Some(first))
    ensures IsFirstFailed(ts[k := UpdatedTask(ts[k], status, timestamp)], Some(first))
  {
  }

  lemma UpdateTaskKeepsPlans(db: Db, key: Key, plan: Key, status: TaskStatus, timestamp: Time, now: Time,
                             hint: Option<Key>, clock: Time)
    requires TasksSound(db, clock) && PlansSound(db) && plan in db.plans
    requires key in db.tasks && db.tasks[key].plan == plan && TaskMayBecome(db.tasks[key], status, timestamp, clock)
    ensures PlansSound(SyncUpdateTask(db, key, plan, status, timestamp, now, hint))
    ensures KeepsPlanFirsts(db.plans, SyncUpdateTask(db, key, plan, status, timestamp, now, hint).plans)
  {
    var t := UpdatedTask(db.tasks[key], status, timestamp);
    var ts := ComputeTasks(db.tasks, plan);
    assert PlanMatchesTasks(db.plans[plan], ts);
    if db.plans[plan].failedTask.Some? {
      FirstFailureStays(ts, db.plans[plan].failedTask.value, key, status, timestamp, clock);
    }
    TaskWriteSound(db, key, t, now, hint);
  }

  lemma PlanStillMatches(p: Plan, ts: PlanTasks, ts': PlanTasks)
    requires PlanMatchesTasks(p, ts) && ts'.Keys == ts.Keys
    requires forall k :: k in ts ==> ts'[k].status == ts[k].status && ts'[k].endDate == ts[k].endDate
    ensures PlanMatchesTasks(p, ts')
  {
  }

  lemma FailuresKeepPlans(db: Db, tasks: map<Key, Task>)
    requires PlansSound(db) && tasks.Keys == db.tasks.Keys
    requires forall k :: k in tasks ==> tasks[k] == db.tasks[k].(failure := tasks[k].failure)
    ensures PlansSound(db.(tasks := tasks))
  {
    forall p | p in db.plans ensures PlanMatchesTasks(db.plans[p], ComputeTasks(tasks, p)) {
      PlanStillMatches(db.plans[p], ComputeTasks(db.tasks, p), ComputeTasks(tasks, p));
    }
  }

  /* ---------- links ---------- */

  /** The join survives when the links are the same and no task, function or declared kind is lost. */
  lemma LinksCarryOver(db: Db, db': Db)
    requires LinksSound(db) && KindsSound(db)
    requires db'.links == db.links && db.tasks.Keys <= db'.tasks.Keys && db.functions.Keys <= db'.functions.Keys
    requires forall k :: k in db.tasks ==> db'.tasks[k].function_ == db.tasks[k].function_
    requires forall f :: f in db.functions ==> db'.functions[f].inputKinds == db.functions[f].inputKinds
    ensures LinksSound(db') && KindsSound(db')
  {
  }

  lemma NewTaskKeepsLinks(db: Db, e: Event)
    requires e.CreateTask? && LinksSound(db) && e.key !in db.tasks && RegisterTask(db, e).Ok?
    ensures LinksSound(RegisterTask(db, e).value)
  {
    InsertTaskKeepsJoin(db.links, e.key, e.channel, e.inputs, e.outputs, db.functions[e.function_].inputKinds);
  }

  lemma NewInputKind(db: Db, e: Event, i: nat)
    requires e.CreateTask? && LinksSound(db) && e.key !in db.tasks && RegisterTask(db, e).Ok? && i < |e.inputs|
    requires InputId(e.key, i) in RegisterTask(db, e).value.links.inputAssets
    ensures InputId(e.key, i) in RegisterTask(db, e).value.links.inputs
    ensures SoundKind(RegisterTask(db, e).value, InputId(e.key, i))
  {
    AssetOfNewInput(db.links, e.key, e.channel, e.inputs, e.outputs, db.functions[e.function_].inputKinds, i);
  }

  lemma OldInputKind(db: Db, e: Event, id: InputId)
    requires e.CreateTask? && LinksSound(db) && KindsSound(db) && e.key !in db.tasks && RegisterTask(db, e).Ok?
    requires id !in InputIds(e.key, |e.inputs|) && id in RegisterTask(db, e).value.links.inputAssets
    ensures id in RegisterTask(db, e).value.links.inputs && SoundKind(RegisterTask(db, e).value, id)
  {
    AssetOfOldInput(db.links, e.key, e.channel, e.inputs, e.outputs, db.functions[e.function_].inputKinds, id);
    assert SoundKind(db, id);
  }

  lemma NewTaskKeepsKinds(db: Db, e: Event)
    requires e.CreateTask? && LinksSound(db) && KindsSound(db) && e.key !in db.tasks && RegisterTask(db, e).Ok?
    ensures KindsSound(RegisterTask(db, e).value)
  {
    var db' := RegisterTask(db, e).value;
    forall id | id in db'.links.inputs && id in db'.links.inputAssets ensures SoundKind(db', id) {
      if id in InputIds(e.key, |e.inputs|) {
        NewInputKind(db, e, id.position);
      } else {
        OldInputKind(db, e, id);
      }
    }
  }

  lemma OutputAssetKeepsLinks(db: Db, channel: Channel, out: OutputId, asset: AssetRef)
    requires LinksSound(db) && KindsSound(db)
    requires out in db.links.outputs && db.links.outputs[out] == channel && AssetsOf(db.links, out) == []
    ensures var links := InsertOutputAsset(db.links, channel, out, asset);
            links.Ok? && LinksSound(db.(links := links.value)) && KindsSound(db.(links := links.value))
  {
    InsertOutputAssetSucceeds(db.links, channel, out, asset);
    InsertOutputAssetKeepsJoin(db.links, channel, out, asset);
    var db' := db.(links := InsertOutputAsset(db.links, channel, out, asset).value);
    forall id | id in db'.links.inputs && id in db'.links.inputAssets ensures SoundKind(db', id) {
      AssetAfterOutput(db.links, channel, out, asset, id);
      if id !in InputsFrom(db.links, out) {
        assert SoundKind(db, id);
      }
    }
  }

  /* ---------- every event ---------- */

  ghost predicate KeepsSound(db: Db, d: Delivery, clock: Time) {
    var after := Apply(db, d);
    && after.Ok?
    && Sound(after.value, Clock(clock, d.event))
    && KeepsPlanFirsts(db.plans, after.value.plans)
    && KeepsTaskDates(db.tasks, after.value.tasks)
  }

  lemma PlanEventSound(db: Db, d: Delivery, clock: Time)
    requires Sound(db, clock) && WellFormed(db, d.event, clock) && (d.event.CreatePlan? || d.event.UpdatePlan?)
    ensures KeepsSound(db, d, clock)
  {
    hide PlansSound, LinksSound, KindsSound, Refresh;
    var e := d.event;
    if e.CreatePlan? {
      CreatePlanKeepsPlans(db, e.key, e.channel, e.name, clock);
    } else {
      UpdatePlanKeepsPlans(db, e.key, e.name, e.cancelationDate, d.now, d.hint, clock);
    }
    LinksCarryOver(db, Apply(db, d).value);
  }

  lemma CreateTaskRegisters(db: Db, e: Event, clock: Time)
    requires e.CreateTask? && WellFormed(db, e, clock)
    ensures RegisterTask(db, e).Ok?
  {
  }

  lemma SamePlansAndTasks(db: Db, db': Db)
    requires PlansSound(db) && db'.plans == db.plans && db'.tasks == db.tasks
    ensures PlansSound(db')
  {
  }

  lemma NewTaskKeepsPlans(db: Db, e: Event, now: Time, hint: Option<Key>, clock: Time)
    requires TasksSound(db, clock) && PlansSound(db)
    requires e.CreateTask? && !Terminal(e.status) && e.key !in db.tasks && RegisterTask(db, e).Ok?
    ensures var after := RefreshPlan(RegisterTask(db, e).value, e.plan, now, hint);
            PlansSound(after) && KeepsPlanFirsts(db.plans, after.plans)
  {
    var registered := RegisterTask(db, e).value;
    var linked := db.(links := registered.links);
    SamePlansAndTasks(db, linked);
    CreateTaskKeepsPlans(linked, e.key, NewTask(e), now, hint, clock);
    assert registered == linked.(tasks := linked.tasks[e.key := NewTask(e)]);
  }

  lemma NewTaskKeepsTasks(db: Db, e: Event, clock: Time)
    requires TasksSound(db, clock)
    requires e.CreateTask? && !Terminal(e.status) && e.key !in db.tasks && RegisterTask(db, e).Ok?
    ensures TasksSound(RegisterTask(db, e).value, clock)
    ensures KeepsTaskDates(db.tasks, RegisterTask(db, e).value.tasks)
  {
  }

  lemma RefreshKeepsTasks(db: Db, plan: Key, now: Time, hint: Option<Key>, clock: Time)
    requires TasksSound(db, clock) && plan in db.plans
    ensures TasksSound(RefreshPlan(db, plan, now, hint), clock)
  {
  }

  lemma RefreshKeepsLinks(db: Db, plan: Key, now: Time, hint: Option<Key>)
    requires LinksSound(db) && KindsSound(db) && plan in db.plans
    ensures LinksSound(RefreshPlan(db, plan, now, hint)) && KindsSound(RefreshPlan(db, plan, now, hint))
  {
    LinksCarryOver(db, RefreshPlan(db, plan, now, hint));
  }

  lemma ApplyNewTask(db: Db, d: Delivery)
    requires d.event.CreateTask? && RegisterTask(db, d.event).Ok?
    ensures Apply(db, d) == Ok(RefreshPlan(RegisterTask(db, d.event).value, d.event.plan, d.now, d.hint))
    ensures Apply(db, d).value.tasks == RegisterTask(db, d.event).value.tasks
  {
  }

  lemma NewTaskEventSound(db: Db, d: Delivery, clock: Time)
    requires TasksSound(db, clock) && PlansSound(db) && LinksSound(db) && KindsSound(db)
    requires d.event.CreateTask? && !Terminal(d.event.status) && d.event.key !in db.tasks
        && RegisterTask(db, d.event).Ok?
    ensures KeepsSound(db, d, clock)
  {
    hide PlansSound, LinksSound, KindsSound, Refresh;
    var e := d.event;
    var registered := RegisterTask(db, e).value;
    var after := RefreshPlan(registered, e.plan, d.now, d.hint);
    NewTaskKeepsPlans(db, e, d.now, d.hint, clock);
    NewTaskKeepsTasks(db, e, clock);
    RefreshKeepsTasks(registered, e.plan, d.now, d.hint, clock);
    NewTaskKeepsLinks(db, e);
    NewTaskKeepsKinds(db, e);
    RefreshKeepsLinks(registered, e.plan, d.now, d.hint);
    ApplyNewTask(db, d);
  }

  lemma ReplayedTaskEventSound(db: Db, d: Delivery, clock: Time)
    requires Sound(db, clock) && d.event.CreateTask? && d.event.key in db.tasks && RegisterTask(db, d.event) == Ok(db)
    requires d.event.plan in db.plans
    ensures KeepsSound(db, d, clock)
  {
    hide PlansSound, LinksSound, KindsSound, Refresh, RegisterTask;
    ReplayedTaskKeepsPlans(db, d.event.plan, d.now, d.hint, clock);
    RefreshKeepsLinks(db, d.event.plan, d.now, d.hint);
  }

  lemma CreateTaskSound(db: Db, d: Delivery, clock: Time)
    requires Sound(db, clock) && d.event.CreateTask? && WellFormed(db, d.event, clock)
    ensures KeepsSound(db, d, clock)
  {
    hide PlansSound, LinksSound, KindsSound, KeepsSound, InsertTask;
    CreateTaskRegisters(db, d.event, clock);
    if d.event.key in db.tasks {
      ReplayedTaskEventSound(db, d, clock);
    } else {
      NewTaskEventSound(db, d, clock);
    }
  }

  lemma UpdateTaskSound(db: Db, d: Delivery, clock: Time)
    requires Sound(db, clock) && d.event.UpdateTask? && WellFormed(db, d.event, clock)
    ensures KeepsSound(db, d, clock)
  {
    hide PlansSound, LinksSound, KindsSound, Refresh;
    var e := d.event;
    UpdateTaskKeepsPlans(db, e.key, e.plan, e.status, e.timestamp, d.now, d.hint, clock);
    UpdateTaskKeepsTasks(db, e.key, e.plan, e.status, e.timestamp, d.now, d.hint, clock);
    LinksCarryOver(db, Apply(db, d).value);
  }

  lemma UpdateTaskKeepsTasks(db: Db, key: Key, plan: Key, status: TaskStatus, timestamp: Time, now: Time,
                             hint: Option<Key>, clock: Time)
    requires TasksSound(db, clock) && plan in db.plans
    requires key in db.tasks && TaskMayBecome(db.tasks[key], status, timestamp, clock)
    ensures TasksSound(SyncUpdateTask(db, key, plan, status, timestamp, now, hint), timestamp)
    ensures KeepsTaskDates(db.tasks, SyncUpdateTask(db, key, plan, status, timestamp, now, hint).tasks)
  {
    hide Refresh;
  }

  /** A failure report writes nothing but the failure fields of tasks. */
  lemma FailureReportTasks(db: Db, e: Event, clock: Time)
    requires e.CreateFailureReport? && WellFormed(db, e, clock)
    ensures ReportFailure(db, e).Ok?
    ensures var after := ReportFailure(db, e).value;
            && after == db.(tasks := after.tasks, reports := after.reports)
            && after.tasks.Keys == db.tasks.Keys
            && forall k :: k in after.tasks ==> after.tasks[k] == db.tasks[k].(failure := after.tasks[k].failure)
  {
  }

  lemma FailureReportSound(db: Db, d: Delivery, clock: Time)
    requires Sound(db, clock) && d.event.CreateFailureReport? && WellFormed(db, d.event, clock)
    ensures KeepsSound(db, d, clock)
  {
    hide PlansSound, LinksSound, KindsSound, ReportFailure, WellFormed;
    FailureReportTasks(db, d.event, clock);
    var db' := Apply(db, d).value;
    FailuresKeepPlans(db, db'.tasks);
    SamePlansAndTasks(db.(tasks := db'.tasks), db');
    LinksCarryOver(db, db');
  }

  /** Functions, models and reports may change; plans, tasks, links and declared kinds do not. */
  lemma OtherTablesSound(db: Db, db': Db, clock: Time)
    requires Sound(db, clock)
    requires db'.plans == db.plans && db'.tasks == db.tasks && db'.links == db.links
    requires db.functions.Keys <= db'.functions.Keys
    requires forall f :: f in db.functions ==> db'.functions[f].inputKinds == db.functions[f].inputKinds
    ensures Sound(db', clock) && KeepsPlanFirsts(db.plans, db'.plans) && KeepsTaskDates(db.tasks, db'.tasks)
  {
    hide PlansSound, LinksSound, KindsSound;
    SamePlansAndTasks(db, db');
    LinksCarryOver(db, db');
  }

  lemma OtherEventSound(db: Db, d: Delivery, clock: Time)
    requires Sound(db, clock) && WellFormed(db, d.event, clock)
    requires d.event.CreateFunction? || d.event.UpdateFunction? || d.event.CreateModel? || d.event.DisableModel?
        || d.event.NothingToSync?
    ensures KeepsSound(db, d, clock)
  {
    hide Sound, RegisterTask, ReportFailure, InsertOutputAsset, KeepsPlanFirsts, KeepsTaskDates;
    OtherTablesSound(db, Apply(db, d).value, clock);
  }

  /** Every well-formed event is applied without exception and keeps the database sound. */
  lemma WellFormedEventSound(db: Db, d: Delivery, clock: Time)
    requires Sound(db, clock) && WellFormed(db, d.event, clock)
    ensures KeepsSound(db, d, clock)
  {
    hide PlansSound, LinksSound, KindsSound, Refresh, RegisterTask;
    match d.event {
      case CreatePlan(_, _, _) => PlanEventSound(db, d, clock);
      case UpdatePlan(_, _, _) => PlanEventSound(db, d, clock);
      case CreateTask(_, _, _, _, _, _, _) => CreateTaskSound(db, d, clock);
      case UpdateTask(_, _, _, _) => UpdateTaskSound(db, d, clock);
      case CreateOutputAsset(channel, output, asset) =>
        OutputAssetKeepsLinks(db, channel, output, asset);
        SamePlansAndTasks(db, Apply(db, d).value);
      case CreateFailureReport(_, _, _, _, _) => FailureReportSound(db, d, clock);
      case _ => OtherEventSound(db, d, clock);
    }
  }

  /* ---------- every stream ---------- */

  lemma {:induction false} WellFormedStreamSound(db: Db, ds: seq<Delivery>, clock: Time)
    requires Sound(db, clock) && WellFormedStream(db, ds, clock)
    ensures Run(db, ds).Ok?
    ensures Sound(Run(db, ds).value, ClockAfter(ds, clock))
    ensures KeepsPlanFirsts(db.plans, Run(db, ds).value.plans)
    ensures KeepsTaskDates(db.tasks, Run(db, ds).value.tasks)
    decreases |ds|
  {
    if ds != [] {
      var before := ds[..|ds| - 1];
      WellFormedStreamSound(db, before, clock);
      WellFormedEventSound(Run(db, before).value, ds[|ds| - 1], ClockAfter(before, clock));
    }
  }

  lemma EmptyIsSound(clock: Time)
    ensures Sound(EMPTY, clock)
  {
  }
}
