/** The rows of the backend's local database (backend/api/models), one datatype per table.
    A table is a map keyed by primary key; names, tags, metadata and permissions are opaque or absent. */
module Rows {
  import opened Common

  type Key = string      // UUIDs, and the composite keys of performances
  type Ident = string    // identifier of a task input or output
  type Channel = string
  type Time = int

  datatype TaskStatus =
    | WaitingForBuilderSlot
    | Building
    | WaitingForParentTasks
    | WaitingForExecutorSlot
    | Executing
    | Done
    | Canceled
    | Failed

  predicate Terminal(st: TaskStatus) {
    st in {Done, Canceled, Failed}
  }

  datatype PlanStatus = PlanCreated | PlanDoing | PlanDone | PlanCanceled | PlanFailed

  predicate Ended(st: PlanStatus) {
    st in {PlanDone, PlanCanceled, PlanFailed}
  }

  datatype AssetKind = DataSample | DataManager | Model | Performance

  datatype AssetRef = AssetRef(kind: AssetKind, key: Key)

  datatype ErrorType = BuildError | ExecutionError | InternalError

  datatype Logs = Logs(address: string, checksum: string)

  /** What a failure report leaves on a task. */
  datatype TaskFailure = TaskFailure(errorType: Option<ErrorType>, logs: Option<Logs>, logsOwner: Option<string>)

  datatype Task = Task(
    function_: Key,
    plan: Key,
    channel: Channel,
    status: TaskStatus,
    startDate: Option<Time>,
    endDate: Option<Time>,
    failure: TaskFailure)

  datatype Plan = Plan(
    channel: Channel,
    name: string,
    status: PlanStatus,
    cancelationDate: Option<Time>,
    startDate: Option<Time>,
    endDate: Option<Time>,
    failedTask: Option<Key>)

  datatype Function = Function(
    name: string,
    status: string,
    image: Option<(string, string)>,       // address and checksum
    inputKinds: map<Ident, AssetKind>)

  datatype ModelRow = ModelRow(task: Key, address: Option<string>)

  datatype FailureReport = FailureReport(logs: Logs, owner: string)

  /** Where a task input gets its asset from: either a key given by the user or an output of a parent task. */
  datatype InputRef = Direct(key: Key) | FromParent(task: Key, output: Ident) | Unbound

  datatype InputRow = InputRow(identifier: Ident, source: InputRef)

  datatype InputId = InputId(task: Key, position: nat)

  datatype OutputId = OutputId(task: Key, identifier: Ident)

  /** The four tables that link tasks through their assets. */
  datatype Links = Links(
    inputs: map<InputId, InputRow>,
    outputs: map<OutputId, Channel>,
    outputAssets: map<OutputId, seq<AssetRef>>,   // by insertion order; absent means no row
    inputAssets: map<InputId, AssetRef>)          // one-to-one with inputs

  datatype Db = Db(
    plans: map<Key, Plan>,
    tasks: map<Key, Task>,
    functions: map<Key, Function>,
    models: map<Key, ModelRow>,
    reports: map<Key, FailureReport>,
    links: Links)

  /** The exceptions a handler can raise. */
  datatype Error = DoesNotExist | InvalidData | IntegrityError | MissingKey
}
