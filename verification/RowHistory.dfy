/** What the rows of tasks, plans, functions and models end with, told from the events of a stream alone. */
module RowHistory {
  import opened Common
  import opened Rows
  import opened ComputePlans
  import opened TaskLinks
  import opened EventSync

  type About = Event -> bool

  /** The first event of the stream of the given sort. */
  function First(ds: seq<Delivery>, about: About): Option<Event> {
    if ds == [] then None
    else
      var earlier := First(ds[..|ds| - 1], about);
      if earlier.Some? then earlier
      else if about(ds[|ds| - 1].event) then Some(ds[|ds| - 1].event)
      else None
  }

  /** The last one. */
  function Last(ds: seq<Delivery>, about: About): Option<Event> {
    if ds == [] then None
    else if about(ds[|ds| - 1].event) then Some(ds[|ds| - 1].event)
    else Last(ds[..|ds| - 1], about)
  }

  /* ---------- tasks ---------- */

  predicate CreatesTask(k: Key, e: Event) { e.CreateTask? && e.key == k }

  predicate UpdatesTask(k: Key, e: Event) { e.UpdateTask? && e.key == k }

  function TaskCreation(ds: seq<Delivery>, k: Key): Option<Event> { First(ds, e => CreatesTask(k, e)) }

  function LastTaskUpdate(ds: seq<Delivery>, k: Key): Option<Event> { Last(ds, e => UpdatesTask(k, e)) }

  lemma CreationOfTask(db: Db, d: Delivery, k: Key)
    requires d.event.CreateTask? && Apply(db, d).Ok?
    ensures var after := Apply(db, d).value.tasks;
            && (k in after <==> k in db.tasks || k == d.event.key)
            && (k in db.tasks ==> after[k] == db.tasks[k])
            && (k in after && k !in db.tasks ==>
                  && after[k].status == d.event.status && after[k].plan == d.event.plan
                  && after[k].function_ == d.event.function_ && after[k].channel == d.event.channel)
  {
    hide Refresh, InsertTask, ComputeTasks;
  }

  lemma UpdateOfTask(db: Db, d: Delivery, k: Key)
    requires d.event.UpdateTask? && Apply(db, d).Ok?
    ensures var after := Apply(db, d).value.tasks;
            && d.event.key in db.tasks && after.Keys == db.tasks.Keys
            && (k in db.tasks ==>
                  && after[k].status == (if k == d.event.key then d.event.status else db.tasks[k].status)
                  && after[k].plan == db.tasks[k].plan && after[k].function_ == db.tasks[k].function_
                  && after[k].channel == db.tasks[k].channel)
  {
    hide Refresh, ComputeTasks;
  }

  lemma ReportOnTask(db: Db, d: Delivery, k: Key)
    requires d.event.CreateFailureReport? && Apply(db, d).Ok?
    ensures var after := Apply(db, d).value.tasks;
            && after.Keys == db.tasks.Keys
            && (k in db.tasks ==> after[k] == db.tasks[k].(failure := after[k].failure))
  {
    hide InsertOutputAsset, UpdatedFunction, SyncCreatePlan, SyncUpdatePlan, SyncUpdateTask, RegisterTask;
  }

  lemma TasksUntouched(db: Db, d: Delivery)
    requires !d.event.CreateTask? && !d.event.UpdateTask? && !d.event.CreateFailureReport? && Apply(db, d).Ok?
    ensures Apply(db, d).value.tasks == db.tasks
  {
    hide Refresh, InsertOutputAsset, UpdatedFunction, ComputeTasks, ReportFailure, RegisterTask, SyncUpdateTask;
  }

  /** Over any stream at all: a task is there exactly when some event created it; its plan, function and
      channel are those of its first creation, and its status is that of the last update, or else of that
      creation. */
  lemma {:induction false} TasksEndAsLastUpdated(db: Db, ds: seq<Delivery>, k: Key)
    requires Run(db, ds).Ok? && k !in db.tasks
    ensures var after, creation, update := Run(db, ds).value.tasks, TaskCreation(ds, k), LastTaskUpdate(ds, k);
            && (k in after <==> creation.Some?)
            && (update.Some? ==> creation.Some? && update.value.UpdateTask?)
            && (k in after ==>
                  && creation.value.CreateTask?
                  && after[k].plan == creation.value.plan && after[k].function_ == creation.value.function_
                  && after[k].channel == creation.value.channel
                  && after[k].status == if update.Some? then update.value.status else creation.value.status)
    decreases |ds|
  {
    hide Apply;
    if ds != [] {
      var before, d := ds[..|ds| - 1], ds[|ds| - 1];
      var mid := Run(db, before).value;
      TasksEndAsLastUpdated(db, before, k);
      if d.event.CreateTask? {
        CreationOfTask(mid, d, k);
      } else if d.event.UpdateTask? {
        UpdateOfTask(mid, d, k);
      } else if d.event.CreateFailureReport? {
        ReportOnTask(mid, d, k);
      } else {
        TasksUntouched(mid, d);
      }
    }
  }

  /* ---------- plans ---------- */

  predicate CreatesPlan(p: Key, e: Event) { e.CreatePlan? && e.key == p }

  predicate UpdatesPlan(p: Key, e: Event) { e.UpdatePlan? && e.key == p }

  function PlanCreation(ds: seq<Delivery>, p: Key): Option<Event> { First(ds, e => CreatesPlan(p, e)) }

  function LastPlanUpdate(ds: seq<Delivery>, p: Key): Option<Event> { Last(ds, e => UpdatesPlan(p, e)) }

  /** A canceled plan says so and ended then, and a plan past CREATED has started. */
  predicate Shown(p: Plan) {
    && (p.cancelationDate.Some? ==> p.status == PlanCanceled && p.endDate == p.cancelationDate)
    && (p.status != PlanCreated ==> p.startDate.Some?)
  }

  /** The start date is the clock of the first moment past CREATED. */
  predicate Starts(before: Option<Time>, after: Plan, now: Time) {
    after.startDate == if before.Some? then before else if after.status == PlanCreated then None else Some(now)
  }

  /** What an event does to the row of plan `p`. */
  predicate PlanMoves(before: Plan, after: Plan, d: Delivery, p: Key) {
    && after.channel == before.channel
    && after.name == (if UpdatesPlan(p, d.event) then d.event.name else before.name)
    && after.cancelationDate == (if UpdatesPlan(p, d.event) then d.event.cancelationDate else before.cancelationDate)
    && (Shown(before) ==> Shown(after) && Starts(before.startDate, after, d.now))
  }

  lemma RefreshMoves(p: Plan, ts: PlanTasks, now: Time, hint: Option<Key>)
    ensures var r := Refresh(p, ts, now, hint);
            && r.channel == p.channel && r.name == p.name && r.cancelationDate == p.cancelationDate
            && Shown(r) && Starts(p.startDate, r, now)
  {
    hide GetTaskStats, LatestEnd, FirstFailed, IsLatestEnd, IsFirstFailed, OngoingTasks, FailedOrCanceledTasks;
  }

  lemma PlanUpdated(db: Db, d: Delivery, p: Key)
    requires d.event.UpdatePlan? && Apply(db, d).Ok?
    ensures var after := Apply(db, d).value.plans;
            && d.event.key in db.plans && after.Keys == db.plans.Keys
            && (p in db.plans ==> PlanMoves(db.plans[p], after[p], d, p))
  {
    hide Refresh, ComputeTasks, Shown, Starts;
    var e := d.event;
    RefreshMoves(db.plans[e.key].(name := e.name, cancelationDate := e.cancelationDate),
                 ComputeTasks(db.tasks, e.key), d.now, d.hint);
    UnmovedPlan(db, d, p);
  }

  /** A plan whose row does not change moves in no way. */
  lemma UnmovedPlan(db: Db, d: Delivery, p: Key)
    ensures p in db.plans && !UpdatesPlan(p, d.event) ==> PlanMoves(db.plans[p], db.plans[p], d, p)
  {
  }

  lemma PlanOfTaskWritten(db: Db, d: Delivery, p: Key)
    requires (d.event.CreateTask? || d.event.UpdateTask?) && Apply(db, d).Ok?
    ensures var after := Apply(db, d).value.plans;
            && after.Keys == db.plans.Keys
            && (p in db.plans ==> PlanMoves(db.plans[p], after[p], d, p))
  {
    hide Refresh, ComputeTasks, Shown, Starts, InsertTask;
    var e := d.event;
    if e.plan in db.plans {
      RefreshMoves(db.plans[e.plan], ComputeTasks(Apply(db, d).value.tasks, e.plan), d.now, d.hint);
    }
    UnmovedPlan(db, d, p);
  }

  lemma PlansUntouched(db: Db, d: Delivery)
    requires !d.event.CreatePlan? && !d.event.UpdatePlan? && !d.event.CreateTask? && !d.event.UpdateTask?
    requires Apply(db, d).Ok?
    ensures Apply(db, d).value.plans == db.plans
  {
    hide Refresh, InsertOutputAsset, UpdatedFunction, ComputeTasks, FailTasks, FailedTask, RegisterTask;
  }

  lemma CreationOfPlan(db: Db, d: Delivery, p: Key)
    requires d.event.CreatePlan?
    ensures var e, after := d.event, SyncCreatePlan(db, d.event.key, d.event.channel, d.event.name).plans;
            && (p in after <==> p in db.plans || p == e.key)
            && (p in db.plans ==> after[p] == db.plans[p])
            && (p in after && p !in db.plans ==>
                  && after[p].channel == e.channel && after[p].name == e.name && after[p].cancelationDate == None
                  && after[p].startDate == None && after[p].status == PlanCreated && Shown(after[p]))
  {
  }

  /** What one event does to the row of a plan, and where rows come from. */
  lemma PlanStep(db: Db, d: Delivery, p: Key)
    requires Apply(db, d).Ok?
    ensures var e, after := d.event, Apply(db, d).value.plans;
            && (p in after <==> p in db.plans || CreatesPlan(p, e)) && (UpdatesPlan(p, e) ==> p in db.plans)
            && (p in db.plans ==> PlanMoves(db.plans[p], after[p], d, p))
            && (p in after && p !in db.plans ==>
                  && after[p].channel == e.channel && after[p].name == e.name && after[p].cancelationDate == None
                  && after[p].startDate == None && after[p].status == PlanCreated && Shown(after[p]))
  {
    hide PlanMoves, Shown, Starts, SyncUpdatePlan, SyncUpdateTask, RegisterTask, ReportFailure, InsertOutputAsset;
    match d.event {
      case CreatePlan(_, _, _) =>
        CreationOfPlan(db, d, p);
        UnmovedPlan(db, d, p);
      case UpdatePlan(_, _, _) => PlanUpdated(db, d, p);
      case CreateTask(_, _, _, _, _, _, _) => PlanOfTaskWritten(db, d, p);
      case UpdateTask(_, _, _, _) => PlanOfTaskWritten(db, d, p);
      case _ =>
        PlansUntouched(db, d);
        UnmovedPlan(db, d, p);
    }
  }

  /** Over any stream at all: a plan is there exactly when some event created it; its channel is that of its
      first creation, its name and cancelation date are those of the last update, or else the name of that
      creation and none. */
  lemma {:induction false} PlansEndAsLastUpdated(db: Db, ds: seq<Delivery>, p: Key)
    requires Run(db, ds).Ok? && p !in db.plans
    ensures var after, creation, update := Run(db, ds).value.plans, PlanCreation(ds, p), LastPlanUpdate(ds, p);
            && (p in after <==> creation.Some?)
            && (update.Some? ==> creation.Some? && update.value.UpdatePlan?)
            && (p in after ==>
                  && creation.value.CreatePlan? && after[p].channel == creation.value.channel
                  && after[p].name == (if update.Some? then update.value.name else creation.value.name)
                  && after[p].cancelationDate == if update.Some? then update.value.cancelationDate else None)
            && (p in after ==> Shown(after[p]))
    decreases |ds|
  {
    hide Apply, Shown, Starts;
    if ds != [] {
      var before, d := ds[..|ds| - 1], ds[|ds| - 1];
      PlansEndAsLastUpdated(db, before, p);
      PlanStep(Run(db, before).value, d, p);
    }
  }

  /** So a plan whose last update carries a cancelation date is CANCELED and ended exactly then. */
  lemma CanceledByTheLastUpdate(db: Db, ds: seq<Delivery>, p: Key)
    requires Run(db, ds).Ok? && p !in db.plans && LastPlanUpdate(ds, p).Some?
    ensures p in Run(db, ds).value.plans && LastPlanUpdate(ds, p).value.UpdatePlan?
    ensures LastPlanUpdate(ds, p).value.cancelationDate.Some? ==>
              && Run(db, ds).value.plans[p].status == PlanCanceled
              && Run(db, ds).value.plans[p].endDate == LastPlanUpdate(ds, p).value.cancelationDate
  {
    hide Run, Last, First;
    PlansEndAsLastUpdated(db, ds, p);
  }

  /** The clock at the first moment of a pass at which the plan is past CREATED. */
  ghost function FirstStart(db: Db, ds: seq<Delivery>, p: Key): Option<Time>
    requires Run(db, ds).Ok?
  {
    if ds == [] then None
    else
      var earlier, plans := FirstStart(db, ds[..|ds| - 1], p), Run(db, ds).value.plans;
      if earlier.Some? then earlier
      else if p in plans && plans[p].status != PlanCreated then Some(ds[|ds| - 1].now)
      else None
  }

  /** Over any stream at all, a plan's start date is the clock read by the handler of the first event that left
      it past CREATED, and there is none before. */
  lemma {:induction false} PlansStartWhenFirstPastCreated(db: Db, ds: seq<Delivery>, p: Key)
    requires Run(db, ds).Ok? && p !in db.plans
    ensures p !in Run(db, ds).value.plans ==> FirstStart(db, ds, p) == None
    ensures p in Run(db, ds).value.plans ==> Run(db, ds).value.plans[p].startDate == FirstStart(db, ds, p)
    decreases |ds|
  {
    hide Apply, Shown;
    if ds != [] {
      var before, d := ds[..|ds| - 1], ds[|ds| - 1];
      PlansStartWhenFirstPastCreated(db, before, p);
      PlansEndAsLastUpdated(db, before, p);
      PlanStep(Run(db, before).value, d, p);
    }
  }

  /* ---------- functions ---------- */

  predicate CreatesFunction(f: Key, e: Event) { e.CreateFunction? && e.key == f }

  predicate RenamesFunction(f: Key, e: Event) { e.UpdateFunction? && e.key == f && e.name != "" }

  predicate SetsFunctionStatus(f: Key, e: Event) { e.UpdateFunction? && e.key == f && e.functionStatus != "" }

  predicate SetsFunctionImage(f: Key, e: Event) {
    && e.UpdateFunction? && e.key == f
    && e.address.Some? && e.address.value != "" && e.checksum.Some? && e.checksum.value != ""
  }

  /** What an event makes of the row of function `f`. */
  predicate FunctionMoves(before: Function, after: Function, e: Event, f: Key) {
    && after.name == (if RenamesFunction(f, e) then e.name else before.name)
    && after.status == (if SetsFunctionStatus(f, e) then e.functionStatus else before.status)
    && after.image == (if SetsFunctionImage(f, e) then Some((e.address.value, e.checksum.value)) else before.image)
    && after.inputKinds == before.inputKinds
  }

  lemma FunctionsUntouched(db: Db, d: Delivery)
    requires Apply(db, d).Ok? && !d.event.CreateFunction? && !d.event.UpdateFunction?
    ensures Apply(db, d).value.functions == db.functions
  {
    hide Refresh, InsertTask, InsertOutputAsset, FailTasks, FailedTask, ComputeTasks, UpdatedTask, UpdatedFunction;
  }

  lemma FunctionUpdated(db: Db, d: Delivery, f: Key)
    requires Apply(db, d).Ok? && d.event.UpdateFunction?
    ensures var after := Apply(db, d).value.functions;
            && d.event.key in db.functions && after.Keys == db.functions.Keys
            && (f in db.functions ==> FunctionMoves(db.functions[f], after[f], d.event, f))
  {
    hide SyncCreatePlan, SyncUpdatePlan, SyncUpdateTask, RegisterTask, InsertOutputAsset, ReportFailure;
  }

  lemma FunctionStep(db: Db, d: Delivery, f: Key)
    requires Apply(db, d).Ok?
    ensures var e, after := d.event, Apply(db, d).value.functions;
            && (f in after <==> f in db.functions || CreatesFunction(f, e))
            && (e.UpdateFunction? ==> e.key in db.functions)
            && (f in db.functions ==> FunctionMoves(db.functions[f], after[f], e, f))
            && (f in after && f !in db.functions ==> after[f] == e.row)
  {
    hide SyncCreatePlan, SyncUpdatePlan, SyncUpdateTask, RegisterTask, InsertOutputAsset, ReportFailure;
    if d.event.UpdateFunction? {
      FunctionUpdated(db, d, f);
    } else if !d.event.CreateFunction? {
      FunctionsUntouched(db, d);
    }
  }

  /** Over any stream at all: a function has the declared input kinds of its first creation, and the name, the
      status and the image of the last update that gave one that is not empty, or else of that creation. */
  lemma {:induction false} FunctionsEndAsLastUpdated(db: Db, ds: seq<Delivery>, f: Key)
    requires Run(db, ds).Ok? && f !in db.functions
    ensures var after, creation := Run(db, ds).value.functions, First(ds, e => CreatesFunction(f, e));
            var name, status, image := Last(ds, e => RenamesFunction(f, e)), Last(ds, e => SetsFunctionStatus(f, e)),
                Last(ds, e => SetsFunctionImage(f, e));
            && (f in after <==> creation.Some?)
            && (name.Some? || status.Some? || image.Some? ==> creation.Some?)
            && (f in after ==>
                  && creation.value.CreateFunction?
                  && (name.Some? ==> RenamesFunction(f, name.value) && after[f].name == name.value.name)
                  && (name.None? ==> after[f].name == creation.value.row.name)
                  && (status.Some? ==>
                        SetsFunctionStatus(f, status.value) && after[f].status == status.value.functionStatus)
                  && (status.None? ==> after[f].status == creation.value.row.status)
                  && (image.Some? ==>
                        && SetsFunctionImage(f, image.value)
                        && after[f].image == Some((image.value.address.value, image.value.checksum.value)))
                  && (image.None? ==> after[f].image == creation.value.row.image)
                  && after[f].inputKinds == creation.value.row.inputKinds)
    decreases |ds|
  {
    hide Apply;
    if ds != [] {
      FunctionsEndAsLastUpdated(db, ds[..|ds| - 1], f);
      FunctionStep(Run(db, ds[..|ds| - 1]).value, ds[|ds| - 1], f);
    }
  }

  /* ---------- models ---------- */

  predicate RegistersModel(m: Key, e: Event) { e.CreateModel? && e.key == m }

  predicate DisablesModel(m: Key, e: Event) { e.DisableModel? && e.key == m }

  lemma ModelStep(db: Db, d: Delivery, m: Key)
    requires Apply(db, d).Ok?
    ensures var e, after := d.event, Apply(db, d).value.models;
            && (m in after <==> m in db.models || RegistersModel(m, e))
            && (e.DisableModel? ==> e.key in db.models)
            && (m in db.models ==>
                  && after[m].task == db.models[m].task
                  && after[m].address == if DisablesModel(m, e) then None else db.models[m].address)
            && (m in after && m !in db.models ==> after[m].task == e.task && after[m].address == e.address)
  {
    hide Refresh, InsertTask, InsertOutputAsset, FailTasks, FailedTask, ComputeTasks, UpdatedTask, UpdatedFunction;
  }

  /** Over any stream at all: a model belongs to the task of its first registration; once disabled it has no
      address for good, whatever registers it again, and otherwise that of its first registration. */
  lemma {:induction false} ModelsStayDisabled(db: Db, ds: seq<Delivery>, m: Key)
    requires Run(db, ds).Ok? && m !in db.models
    ensures var after, creation := Run(db, ds).value.models, First(ds, e => RegistersModel(m, e));
            var disabled := Last(ds, e => DisablesModel(m, e)).Some?;
            && (m in after <==> creation.Some?)
            && (disabled ==> creation.Some?)
            && (m in after ==>
                  && creation.value.CreateModel? && after[m].task == creation.value.task
                  && after[m].address == if disabled then None else creation.value.address)
    decreases |ds|
  {
    hide Apply;
    if ds != [] {
      ModelsStayDisabled(db, ds[..|ds| - 1], m);
      ModelStep(Run(db, ds[..|ds| - 1]).value, ds[|ds| - 1], m);
    }
  }

  /* ---------- output assets ---------- */

  /** The assets sent for an output, in order. */
  function Sent(ds: seq<Delivery>, out: OutputId): seq<AssetRef> {
    if ds == [] then []
    else
      var e := ds[|ds| - 1].event;
      Sent(ds[..|ds| - 1], out) + if e.CreateOutputAsset? && e.output == out then [e.asset] else []
  }

  lemma LinksUntouched(db: Db, d: Delivery)
    requires Apply(db, d).Ok? && !d.event.CreateTask? && !d.event.CreateOutputAsset?
    ensures Apply(db, d).value.links == db.links
  {
    hide Refresh, ComputeTasks, UpdatedTask, UpdatedFunction, FailTasks, FailedTask, RegisterTask, InsertOutputAsset;
  }

  lemma CreationKeepsAssets(db: Db, d: Delivery)
    requires Apply(db, d).Ok? && d.event.CreateTask?
    ensures Apply(db, d).value.links.outputAssets == db.links.outputAssets
  {
    hide Refresh, ComputeTasks, ResolveAll, NewInputs, NewAssets;
  }

  lemma AssetAdded(db: Db, d: Delivery, out: OutputId)
    requires Apply(db, d).Ok? && d.event.CreateOutputAsset?
    ensures AssetsOf(Apply(db, d).value.links, out)
         == AssetsOf(db.links, out) + if d.event.output == out then [d.event.asset] else []
  {
    hide SyncUpdatePlan, SyncUpdateTask, SyncCreatePlan, RegisterTask, UpdatedFunction, ReportFailure;
  }

  lemma AssetsStep(db: Db, d: Delivery, out: OutputId)
    requires Apply(db, d).Ok?
    ensures var e := d.event;
            AssetsOf(Apply(db, d).value.links, out)
            == AssetsOf(db.links, out) + if e.CreateOutputAsset? && e.output == out then [e.asset] else []
  {
    hide Apply;
    if d.event.CreateTask? {
      CreationKeepsAssets(db, d);
    } else if d.event.CreateOutputAsset? {
      AssetAdded(db, d, out);
    } else {
      LinksUntouched(db, d);
    }
  }

  /** Over any stream at all, the assets of an output are those sent for it, in the order of the stream: the first
      one, which the eager path links, is the first one sent. */
  lemma {:induction false} AssetsAreThoseSent(db: Db, ds: seq<Delivery>, out: OutputId)
    requires Run(db, ds).Ok? && AssetsOf(db.links, out) == []
    ensures AssetsOf(Run(db, ds).value.links, out) == Sent(ds, out)
    decreases |ds|
  {
    hide Apply, AssetsOf;
    if ds != [] {
      AssetsAreThoseSent(db, ds[..|ds| - 1], out);
      AssetsStep(Run(db, ds[..|ds| - 1]).value, ds[|ds| - 1], out);
    }
  }
}
