/** What the rows of the database refer to, and when an event is refused. */
module References {
  import opened Common
  import opened Rows
  import opened ComputePlans
  import opened TaskLinks
  import opened EventSync
  import opened StreamInvariants
  import opened RowHistory
  import TaskHistory

  datatype Ref =
    | PlanRef(key: Key)
    | TaskRef(key: Key)
    | FunctionRef(key: Key)
    | ModelRef(key: Key)
    | OutputRef(output: OutputId)

  /** The row is in its table. */
  predicate Known(db: Db, ref: Ref) {
    match ref
    case PlanRef(key) => key in db.plans
    case TaskRef(key) => key in db.tasks
    case FunctionRef(key) => key in db.functions
    case ModelRef(key) => key in db.models
    case OutputRef(output) => output in db.links.outputs
  }

  /** The rows an event says are there. */
  function Mentions(e: Event): set<Ref> {
    match e
    case UpdatePlan(key, _, _) => {PlanRef(key)}
    case CreateTask(_, _, plan, function_, _, inputs, _) =>
      {PlanRef(plan), FunctionRef(function_)} + set k | k in Parents(inputs) :: TaskRef(k)
    case UpdateTask(key, plan, _, _) => {TaskRef(key), PlanRef(plan)}
    case CreateOutputAsset(_, output, _) => {OutputRef(output)}
    case UpdateFunction(key, _, _, _, _) => {FunctionRef(key)}
    case CreateModel(_, task, _) => {TaskRef(task)}
    case DisableModel(key) => {ModelRef(key)}
    case CreateFailureReport(key, onFunction, _, _, _) => if onFunction then {} else {TaskRef(key)}
    case _ => {}
  }

  /* ---------- when an event is refused ---------- */

  /** The input names an output that is not there, or needs a declaration that its function does not have. */
  predicate Unresolvable(db: Db, row: InputRow, kinds: map<Ident, AssetKind>) {
    match row.source
    case Direct(_) => row.identifier !in kinds
    case FromParent(task, output) =>
      || !Known(db, OutputRef(OutputId(task, output)))
      || (AssetsOf(db.links, OutputId(task, output)) != [] && row.identifier !in kinds)
    case Unbound => false
  }

  /** Everything mentioned is there, and yet the event cannot be applied. */
  predicate Clashes(db: Db, e: Event)
    requires forall ref :: ref in Mentions(e) ==> Known(db, ref)
  {
    match e
    case CreateTask(key, _, _, function_, _, inputs, _) =>
      assert FunctionRef(function_) in Mentions(e) && Known(db, FunctionRef(function_));
      && key !in db.tasks
      && exists i :: 0 <= i < |inputs| && Unresolvable(db, inputs[i], db.functions[function_].inputKinds)
    case CreateOutputAsset(channel, output, _) =>
      assert OutputRef(output) in Mentions(e) && Known(db, OutputRef(output));
      || db.links.outputs[output] != channel
      || exists id :: id in db.links.inputAssets && id in InputsFrom(db.links, output)
    case CreateFailureReport(_, _, errorType, logs, owner) => errorType != InternalError && (logs.None? || owner.None?)
    case _ => false
  }

  lemma ResolveFails(db: Db, row: InputRow, kinds: map<Ident, AssetKind>)
    ensures Resolve(db.links, row, kinds).Err? <==> Unresolvable(db, row, kinds)
  {
  }

  lemma TaskMentions(db: Db, e: Event)
    requires e.CreateTask?
    ensures TaskErrors(db, e).None? <==> forall ref :: ref in Mentions(e) ==> Known(db, ref)
  {
    if TaskErrors(db, e).None? {
      forall ref | ref in Mentions(e) ensures Known(db, ref) {}
    }
    if forall ref :: ref in Mentions(e) ==> Known(db, ref) {
      assert PlanRef(e.plan) in Mentions(e) && FunctionRef(e.function_) in Mentions(e);
      forall k | k in Parents(e.inputs) ensures k in db.tasks {
        assert TaskRef(k) in Mentions(e);
      }
    }
  }

  lemma CreationRefused(db: Db, d: Delivery)
    requires d.event.CreateTask?
    ensures Apply(db, d).Err? <==>
            !(forall ref :: ref in Mentions(d.event) ==> Known(db, ref)) || Clashes(db, d.event)
  {
    hide Refresh, Mentions, Unresolvable, TaskErrors, Resolve, InputsFrom;
    var e := d.event;
    TaskMentions(db, e);
    if TaskErrors(db, e).None? {
      KnownFunction(db, e);
      var kinds := db.functions[e.function_].inputKinds;
      forall i | 0 <= i < |e.inputs|
        ensures Resolve(db.links, e.inputs[i], kinds).Err? <==> Unresolvable(db, e.inputs[i], kinds)
      {
        ResolveFails(db, e.inputs[i], kinds);
      }
    }
  }

  lemma KnownFunction(db: Db, e: Event)
    requires e.CreateTask? && TaskErrors(db, e).None?
    ensures e.function_ in db.functions && e.plan in db.plans
  {
  }

  /** The exception of an event other than a task creation. */
  lemma RefusedWith(db: Db, d: Delivery)
    requires Apply(db, d).Err? && !d.event.CreateTask?
    ensures var e, error := d.event, Apply(db, d).error;
            && (error == IntegrityError <==>
                e.CreateOutputAsset? && e.output in db.links.outputs && db.links.outputs[e.output] == e.channel)
            && (error == InvalidData <==>
                e.CreateModel? || (e.CreateFailureReport? && e.errorType != InternalError
                                   && (e.logs.None? || e.owner.None?)))
            && error in {DoesNotExist, InvalidData, IntegrityError}
  {
    hide SyncUpdatePlan, SyncUpdateTask, SyncCreatePlan, UpdatedFunction, RegisterTask;
  }

  /** An event raises exactly when something it mentions is not there or it clashes with what is. */
  lemma RefusedExactly(db: Db, d: Delivery)
    ensures Apply(db, d).Err? <==>
            !(forall ref :: ref in Mentions(d.event) ==> Known(db, ref)) || Clashes(db, d.event)
  {
    hide SyncUpdatePlan, SyncUpdateTask, SyncCreatePlan, RegisterTask, UpdatedFunction, Parents;
    match d.event {
      case CreateTask(_, _, _, _, _, _, _) => CreationRefused(db, d);
      case UpdatePlan(key, _, _) => assert PlanRef(key) in Mentions(d.event);
      case UpdateTask(key, plan, _, _) =>
        assert TaskRef(key) in Mentions(d.event) && PlanRef(plan) in Mentions(d.event);
      case CreateOutputAsset(_, output, _) => assert OutputRef(output) in Mentions(d.event);
      case UpdateFunction(key, _, _, _, _) => assert FunctionRef(key) in Mentions(d.event);
      case CreateModel(_, task, _) => assert TaskRef(task) in Mentions(d.event);
      case DisableModel(key) => assert ModelRef(key) in Mentions(d.event);
      case CreateFailureReport(key, onFunction, _, _, _) => assert !onFunction ==> TaskRef(key) in Mentions(d.event);
      case _ =>
    }
  }

  /* ---------- no row dangles ---------- */

  predicate TasksRefer(db: Db) {
    forall k :: k in db.tasks ==> db.tasks[k].plan in db.plans && db.tasks[k].function_ in db.functions
  }

  predicate ModelsRefer(db: Db) {
    forall m :: m in db.models ==> db.models[m].task in db.tasks
  }

  predicate LinksRefer(db: Db) {
    && (forall out :: out in db.links.outputs ==> out.task in db.tasks)
    && (forall id :: id in db.links.inputs ==> id.task in db.tasks)
    && (forall id :: id in db.links.inputs && db.links.inputs[id].source.FromParent? ==>
          OutputId(db.links.inputs[id].source.task, db.links.inputs[id].source.output) in db.links.outputs)
    && db.links.inputAssets.Keys <= db.links.inputs.Keys
    && db.links.outputAssets.Keys <= db.links.outputs.Keys
  }

  /** Every row of the tables refers to rows that are there. */
  predicate RefersSoundly(db: Db) {
    TasksRefer(db) && ModelsRefer(db) && LinksRefer(db)
  }

  /** Rows are never removed. */
  predicate Grows(db: Db, after: Db) {
    && db.plans.Keys <= after.plans.Keys && db.tasks.Keys <= after.tasks.Keys
    && db.functions.Keys <= after.functions.Keys && db.models.Keys <= after.models.Keys
  }

  lemma TablesGrow(db: Db, d: Delivery)
    requires Apply(db, d).Ok?
    ensures Grows(db, Apply(db, d).value)
  {
    hide Apply;
    var after := Apply(db, d).value;
    forall p | p in db.plans ensures p in after.plans {
      PlanStep(db, d, p);
    }
    forall f | f in db.functions ensures f in after.functions {
      FunctionStep(db, d, f);
    }
    forall m | m in db.models ensures m in after.models {
      ModelStep(db, d, m);
    }
    TaskHistory.TasksStay(db, d);
  }

  /** Where the plan and function of a task come from. */
  lemma TaskComesFrom(db: Db, d: Delivery, k: Key)
    requires Apply(db, d).Ok? && k in Apply(db, d).value.tasks
    ensures var t, e := Apply(db, d).value.tasks[k], d.event;
            if k in db.tasks then t.plan == db.tasks[k].plan && t.function_ == db.tasks[k].function_
            else e.CreateTask? && t.plan == e.plan && t.function_ == e.function_
  {
    hide Apply;
    if d.event.CreateTask? {
      CreationOfTask(db, d, k);
    } else if d.event.UpdateTask? {
      UpdateOfTask(db, d, k);
    } else if d.event.CreateFailureReport? {
      ReportOnTask(db, d, k);
    } else {
      TasksUntouched(db, d);
    }
  }

  lemma TasksStillRefer(db: Db, d: Delivery)
    requires TasksRefer(db) && Apply(db, d).Ok?
    ensures TasksRefer(Apply(db, d).value)
  {
    hide Apply, Clashes;
    var after := Apply(db, d).value;
    TablesGrow(db, d);
    RefusedExactly(db, d);
    forall k | k in after.tasks
      ensures after.tasks[k].plan in after.plans && after.tasks[k].function_ in after.functions
    {
      TaskComesFrom(db, d, k);
      if k !in db.tasks {
        assert PlanRef(d.event.plan) in Mentions(d.event) && FunctionRef(d.event.function_) in Mentions(d.event);
        assert Known(db, PlanRef(d.event.plan)) && Known(db, FunctionRef(d.event.function_));
      }
    }
  }

  lemma ModelsStillRefer(db: Db, d: Delivery)
    requires ModelsRefer(db) && Apply(db, d).Ok?
    ensures ModelsRefer(Apply(db, d).value)
  {
    hide Apply, Clashes;
    var after := Apply(db, d).value;
    TablesGrow(db, d);
    RefusedExactly(db, d);
    forall m | m in after.models ensures after.models[m].task in after.tasks {
      ModelStep(db, d, m);
      if m !in db.models {
        assert TaskRef(d.event.task) in Mentions(d.event);
        assert Known(db, TaskRef(d.event.task));
      }
    }
  }

  lemma OutputAssetRefers(db: Db, d: Delivery)
    requires LinksRefer(db) && Apply(db, d).Ok? && d.event.CreateOutputAsset?
    ensures LinksRefer(Apply(db, d).value)
  {
    hide SyncUpdatePlan, SyncUpdateTask, SyncCreatePlan, RegisterTask, UpdatedFunction, ReportFailure;
  }

  lemma TaskRegisters(db: Db, d: Delivery)
    requires Apply(db, d).Ok? && d.event.CreateTask?
    ensures var e, after := d.event, Apply(db, d).value;
            && e.function_ in db.functions
            && after.tasks.Keys == db.tasks.Keys + {e.key}
            && if e.key in db.tasks then after.links == db.links
               else
                 InsertTask(db.links, e.key, e.channel, e.inputs, e.outputs, db.functions[e.function_].inputKinds)
                 == Ok(after.links)
  {
    hide Refresh, ComputeTasks, InsertTask;
  }

  lemma InsertedInputs(l: Links, task: Key, channel: Channel, rows: seq<InputRow>, outputs: set<Ident>,
                       kinds: map<Ident, AssetKind>)
    requires InsertTask(l, task, channel, rows, outputs, kinds).Ok?
    ensures var l' := InsertTask(l, task, channel, rows, outputs, kinds).value;
            && (forall out :: out in l'.outputs ==> out in l.outputs || out.task == task)
            && l.outputs.Keys <= l'.outputs.Keys && l'.outputAssets == l.outputAssets
            && (forall id :: id in l'.inputs ==>
                  || (id in l.inputs && l'.inputs[id] == l.inputs[id])
                  || (id.task == task && id.position < |rows| && l'.inputs[id] == rows[id.position]))
            && l.inputs.Keys <= l'.inputs.Keys
            && (forall id :: id in l'.inputAssets ==> id in l.inputAssets || id in l'.inputs)
  {
    hide Resolve;
  }

  lemma NamedOutputs(l: Links, rows: seq<InputRow>, kinds: map<Ident, AssetKind>, i: nat)
    requires ResolveAll(l, rows, kinds).Ok? && i < |rows| && rows[i].source.FromParent?
    ensures OutputId(rows[i].source.task, rows[i].source.output) in l.outputs
  {
    assert Resolve(l, rows[i], kinds).Ok?;
  }

  /** Where the output an input names comes from. */
  lemma NewInputRefers(l: Links, task: Key, channel: Channel, rows: seq<InputRow>, outputs: set<Ident>,
                       kinds: map<Ident, AssetKind>, id: InputId)
    requires InsertTask(l, task, channel, rows, outputs, kinds).Ok?
    requires forall i: InputId :: i in l.inputs && l.inputs[i].source.FromParent? ==>
               OutputId(l.inputs[i].source.task, l.inputs[i].source.output) in l.outputs
    ensures var l' := InsertTask(l, task, channel, rows, outputs, kinds).value;
            id in l'.inputs && l'.inputs[id].source.FromParent? ==>
              OutputId(l'.inputs[id].source.task, l'.inputs[id].source.output) in l.outputs
  {
    InsertedInputs(l, task, channel, rows, outputs, kinds);
    var l' := InsertTask(l, task, channel, rows, outputs, kinds).value;
    hide InsertTask, ResolveAll;
    if id in l'.inputs && l'.inputs[id].source.FromParent? && !(id in l.inputs && l'.inputs[id] == l.inputs[id]) {
      ResolvedAll(l, task, channel, rows, outputs, kinds);
      NamedOutputs(l, rows, kinds, id.position);
    }
  }

  lemma ResolvedAll(l: Links, task: Key, channel: Channel, rows: seq<InputRow>, outputs: set<Ident>,
                    kinds: map<Ident, AssetKind>)
    requires InsertTask(l, task, channel, rows, outputs, kinds).Ok?
    ensures ResolveAll(l, rows, kinds).Ok?
  {
  }

  lemma CreationRefers(db: Db, d: Delivery)
    requires LinksRefer(db) && Apply(db, d).Ok? && d.event.CreateTask?
    ensures LinksRefer(Apply(db, d).value)
  {
    hide Apply, InsertTask;
    var e, after := d.event, Apply(db, d).value;
    TaskRegisters(db, d);
    if e.key !in db.tasks {
      var kinds := db.functions[e.function_].inputKinds;
      InsertedInputs(db.links, e.key, e.channel, e.inputs, e.outputs, kinds);
      forall id | id in after.links.inputs && after.links.inputs[id].source.FromParent?
        ensures OutputId(after.links.inputs[id].source.task, after.links.inputs[id].source.output) in db.links.outputs
      {
        NewInputRefers(db.links, e.key, e.channel, e.inputs, e.outputs, kinds, id);
      }
    }
  }

  lemma LinksStillRefer(db: Db, d: Delivery)
    requires LinksRefer(db) && Apply(db, d).Ok?
    ensures LinksRefer(Apply(db, d).value)
  {
    hide Apply;
    if d.event.CreateTask? {
      CreationRefers(db, d);
    } else if d.event.CreateOutputAsset? {
      OutputAssetRefers(db, d);
    } else {
      LinksUntouched(db, d);
      TaskHistory.TasksStay(db, d);
    }
    TaskHistory.TasksStay(db, d);
  }

  /** After any stream at all into an empty database, well-formed or not, no row refers to one that is missing:
      tasks to their plan and function, models to their task, inputs to their parents' outputs, assets to their
      inputs and outputs. */
  lemma {:induction false} NothingDangles(ds: seq<Delivery>)
    requires Run(EMPTY, ds).Ok?
    ensures RefersSoundly(Run(EMPTY, ds).value)
    decreases |ds|
  {
    hide Apply, TasksRefer, ModelsRefer, LinksRefer;
    if ds == [] {
      EmptyRefers();
    } else {
      var before, d := ds[..|ds| - 1], ds[|ds| - 1];
      NothingDangles(before);
      TasksStillRefer(Run(EMPTY, before).value, d);
      ModelsStillRefer(Run(EMPTY, before).value, d);
      LinksStillRefer(Run(EMPTY, before).value, d);
    }
  }

  lemma EmptyRefers()
    ensures RefersSoundly(EMPTY)
  {
  }
}
