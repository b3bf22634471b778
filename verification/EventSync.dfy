/** backend/api/events/sync.py on values: what one orchestrator event does to the database. */
module EventSync {
  import opened Common
  import opened Rows
  import opened ComputePlans
  import opened TaskLinks

  datatype Event =
    | CreatePlan(key: Key, channel: Channel, name: string)
    | UpdatePlan(key: Key, name: string, cancelationDate: Option<Time>)
    | CreateTask(key: Key, channel: Channel, plan: Key, function_: Key, status: TaskStatus,
                 inputs: seq<InputRow>, outputs: set<Ident>)
    | UpdateTask(key: Key, plan: Key, status: TaskStatus, timestamp: Time)
    | CreateOutputAsset(channel: Channel, output: OutputId, asset: AssetRef)
    | CreateFunction(key: Key, row: Function)
    | UpdateFunction(key: Key, name: string, functionStatus: string, address: Option<string>, checksum: Option<string>)
    | CreateModel(key: Key, task: Key, address: Option<string>)
    | DisableModel(key: Key)
    | CreateFailureReport(key: Key, onFunction: bool, errorType: ErrorType, logs: Option<Logs>, owner: Option<string>)
    | NothingToSync

  /** One delivery of an event: the clock the handler reads, and the row the database happens to return
      when several failed tasks of a plan ended at the same instant. */
  datatype Delivery = Delivery(event: Event, now: Time, hint: Option<Key>)

  /* ---------- dynamic_fields.py ---------- */

  function StartDateOf(status: TaskStatus, timestamp: Time): Option<Time> {
    if status == Executing then Some(timestamp) else None
  }

  function EndDateOf(status: TaskStatus, timestamp: Time): Option<Time> {
    if Terminal(status) then Some(timestamp) else None
  }

  /* ---------- task rows ---------- */

  function NewTask(e: Event): Task
    requires e.CreateTask?
  {
    Task(e.function_, e.plan, e.channel, e.status, None, None, TaskFailure(None, None, None))
  }

  /** Dates are written once; the status always is. */
  function UpdatedTask(t: Task, status: TaskStatus, timestamp: Time): Task {
    t.(status := status,
       startDate := if t.startDate.None? then StartDateOf(status, timestamp) else t.startDate,
       endDate := if t.endDate.None? then EndDateOf(status, timestamp) else t.endDate)
  }

  function FailedTask(t: Task, errorType: ErrorType, logs: Option<Logs>, owner: Option<string>): Task {
    t.(failure := TaskFailure(
         Some(errorType),
         if logs.Some? then logs else t.failure.logs,
         if owner.Some? then owner else t.failure.logsOwner))
  }

  /** The parent tasks named by input rows. */
  function Parents(rows: seq<InputRow>): set<Key> {
    set i | 0 <= i < |rows| && rows[i].source.FromParent? :: rows[i].source.task
  }

  /** Field validation of the task serializer. */
  function TaskErrors(db: Db, e: Event): Option<Error>
    requires e.CreateTask?
  {
    if e.function_ !in db.functions then Some(DoesNotExist)
    else if e.plan !in db.plans || !(Parents(e.inputs) <= db.tasks.Keys) then Some(InvalidData)
    else None
  }

  /* ---------- handlers ---------- */

  ghost function RefreshPlan(db: Db, plan: Key, now: Time, hint: Option<Key>): Db
    requires plan in db.plans
  {
    db.(plans := db.plans[plan := Refresh(db.plans[plan], ComputeTasks(db.tasks, plan), now, hint)])
  }

  function NewPlan(channel: Channel, name: string): Plan {
    Plan(channel, name, PlanCreated, None, None, None, None)
  }

  function RegisterTask(db: Db, e: Event): Result<Db, Error>
    requires e.CreateTask?
  {
    if TaskErrors(db, e).Some? then Err(TaskErrors(db, e).value)
    else if e.key in db.tasks then Ok(db)
    else
      var links := InsertTask(db.links, e.key, e.channel, e.inputs, e.outputs, db.functions[e.function_].inputKinds);
      if links.Err? then Err(links.error)
      else Ok(db.(tasks := db.tasks[e.key := NewTask(e)], links := links.value))
  }

  function UpdatedFunction(f: Function, name: string, status: string, address: Option<string>,
                           checksum: Option<string>): Function {
    f.(name := if name != "" then name else f.name,
       status := if status != "" then status else f.status,
       image := if address.Some? && address.value != "" && checksum.Some? && checksum.value != ""
                then Some((address.value, checksum.value)) else f.image)
  }

  function TasksOfFunction(tasks: map<Key, Task>, function_: Key): set<Key> {
    set k | k in tasks && tasks[k].function_ == function_
  }

  function FailTasks(tasks: map<Key, Task>, failing: set<Key>, e: Event): map<Key, Task>
    requires e.CreateFailureReport?
  {
    map k | k in tasks :: if k in failing then FailedTask(tasks[k], e.errorType, e.logs, e.owner) else tasks[k]
  }

  function ReportFailure(db: Db, e: Event): Result<Db, Error>
    requires e.CreateFailureReport?
  {
    if e.errorType != InternalError && (e.logs.None? || e.owner.None?) then Err(InvalidData)
    else
      var reports := if e.errorType == InternalError || e.key in db.reports then db.reports
                     else db.reports[e.key := FailureReport(e.logs.value, e.owner.value)];
      if e.onFunction then
        Ok(db.(reports := reports,
               tasks := FailTasks(db.tasks, TasksOfFunction(db.tasks, e.key), e)))
      else if e.key !in db.tasks then Err(DoesNotExist)
      else
        Ok(db.(reports := reports,
               tasks := db.tasks[e.key := FailedTask(db.tasks[e.key], e.errorType, e.logs, e.owner)]))
  }

  function SyncCreatePlan(db: Db, key: Key, channel: Channel, name: string): Db {
    if key in db.plans then db else db.(plans := db.plans[key := NewPlan(channel, name)])
  }

  ghost function SyncUpdatePlan(db: Db, key: Key, name: string, cancelationDate: Option<Time>, now: Time,
                                hint: Option<Key>): Db
    requires key in db.plans
  {
    var p := db.plans[key].(name := name, cancelationDate := cancelationDate);
    RefreshPlan(db.(plans := db.plans[key := p]), key, now, hint)
  }

  ghost function SyncUpdateTask(db: Db, key: Key, plan: Key, status: TaskStatus, timestamp: Time, now: Time,
                                hint: Option<Key>): Db
    requires key in db.tasks && plan in db.plans
  {
    RefreshPlan(db.(tasks := db.tasks[key := UpdatedTask(db.tasks[key], status, timestamp)]), plan, now, hint)
  }

  /** sync_on_event_message: the database after the event, or the exception raised (and nothing written). */
  ghost function Apply(db: Db, d: Delivery): Result<Db, Error> {
    match d.event
    case CreatePlan(key, channel, name) => Ok(SyncCreatePlan(db, key, channel, name))
    case UpdatePlan(key, name, cancelationDate) =>
      if key !in db.plans then Err(DoesNotExist)
      else Ok(SyncUpdatePlan(db, key, name, cancelationDate, d.now, d.hint))
    case CreateTask(_, _, plan, _, _, _, _) =>
      var registered := RegisterTask(db, d.event);
      if registered.Err? then registered else Ok(RefreshPlan(registered.value, plan, d.now, d.hint))
    case UpdateTask(key, plan, status, timestamp) =>
      if key !in db.tasks || plan !in db.plans then Err(DoesNotExist)
      else Ok(SyncUpdateTask(db, key, plan, status, timestamp, d.now, d.hint))
    case CreateOutputAsset(channel, output, asset) =>
      var links := InsertOutputAsset(db.links, channel, output, asset);
      if links.Err? then Err(links.error) else Ok(db.(links := links.value))
    case CreateFunction(key, row) =>
      Ok(if key in db.functions then db else db.(functions := db.functions[key := row]))
    case UpdateFunction(key, name, status, address, checksum) =>
      if key !in db.functions then Err(DoesNotExist)
      else
        var row := UpdatedFunction(db.functions[key], name, status, address, checksum);
        Ok(db.(functions := db.functions[key := row]))
    case CreateModel(key, task, address) =>
      if task !in db.tasks then Err(InvalidData)
      else Ok(if key in db.models then db else db.(models := db.models[key := ModelRow(task, address)]))
    case DisableModel(key) =>
      if key !in db.models then Err(DoesNotExist)
      else Ok(db.(models := db.models[key := db.models[key].(address := None)]))
    case CreateFailureReport(_, _, _, _, _) => ReportFailure(db, d.event)
    case NothingToSync => Ok(db)
  }

  /** An uninterrupted pass over a stream: every event applied once, until an exception ends it. */
  ghost function Run(db: Db, ds: seq<Delivery>): Result<Db, Error> {
    if ds == [] then Ok(db)
    else
      var before := Run(db, ds[..|ds| - 1]);
      if before.Err? then before else Apply(before.value, ds[|ds| - 1])
  }

  function Events(ds: seq<Delivery>): seq<Event> {
    seq(|ds|, i requires 0 <= i < |ds| => ds[i].event)
  }
}
