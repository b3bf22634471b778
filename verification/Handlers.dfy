/** The handlers of backend/api/events/sync.py and the methods of backend/api/models/computeplan.py as they
    work: fetch a row, assign its fields, save it. Every handler is proved against EventSync. */
module Handlers {
  import opened Common
  import opened Rows
  import opened ComputePlans
  import opened TaskLinks
  import opened EventSync

  class Database {
    var plans: map<Key, Plan>
    var tasks: map<Key, Task>
    var functions: map<Key, Function>
    var models: map<Key, ModelRow>
    var reports: map<Key, FailureReport>
    var links: Links

    constructor ()
      ensures State() == Db(map[], map[], map[], map[], map[], Links(map[], map[], map[], map[]))
    {
      plans, tasks, functions, models, reports := map[], map[], map[], map[], map[];
      links := Links(map[], map[], map[], map[]);
    }

    function State(): Db
      reads this
    {
      Db(plans, tasks, functions, models, reports, links)
    }

    /* ---------- models/computeplan.py ---------- */

    method AddFailedTask(key: Key, p: Plan) returns (p': Plan, ghost hint: Option<Key>)
      ensures p.failedTask.Some? ==> p' == p
      ensures p.failedTask.None? ==>
                p' == p.(failedTask := p'.failedTask) && IsFirstFailed(ComputeTasks(tasks, key), p'.failedTask)
      ensures p.failedTask.None? ==> p'.failedTask == FirstFailed(ComputeTasks(tasks, key), hint)
    {
      var ts := ComputeTasks(tasks, key);
      if p.failedTask.Some? {
        return p, None;
      }
      var ended := EndedFailedTasks(ts);
      if ended == {} {
        assert IsFirstFailed(ts, None) by {
          forall k | k in ts && ts[k].status == Failed ensures ts[k].endDate.None? { assert k !in ended; }
        }
        return p, None;
      }
      ghost var earliest := SomeEarliest(ts, ended);
      var first :| first in ended && forall k :: k in ended ==> ts[first].endDate.value <= ts[k].endDate.value;
      assert IsFirstFailed(ts, Some(first)) by {
        forall k | k in ts && ts[k].status == Failed && ts[k].endDate.Some?
          ensures ts[first].endDate.value <= ts[k].endDate.value
        {
          assert k in ended;
        }
      }
      p' := p.(failedTask := Some(first));
      hint := Some(first);
    }

    method UpdateStatus(key: Key, now: Time) returns (ghost hint: Option<Key>)
      requires key in plans
      modifies this`plans
      ensures plans
          == old(plans)[key := ComputePlans.UpdateStatus(old(plans)[key], ComputeTasks(tasks, key), now, hint)]
    {
      hide GetTaskStats, ComputeTasks, IsFirstFailed, FirstFailed;
      var p := plans[key];
      var stats := GetTaskStats(ComputeTasks(tasks, key));
      var status;
      if p.cancelationDate.Some? || stats.canceledCount > 0 {
        status := PlanCanceled;
      } else if stats.taskCount == 0 || stats.waitingBuilderSlotCount == stats.taskCount {
        status := PlanCreated;
      } else if stats.doneCount == stats.taskCount {
        status := PlanDone;
      } else if stats.failedCount > 0 {
        status := PlanFailed;
      } else {
        status := PlanDoing;
      }
      if status != PlanCreated && p.startDate.None? {
        p := p.(startDate := Some(now));
      }
      p := p.(status := status);
      hint := None;
      if p.status == PlanFailed {
        p, hint := AddFailedTask(key, p);
      }
      plans := plans[key := p];
    }

    method UpdateEndDate(key: Key)
      requires key in plans
      modifies this`plans
      ensures plans == old(plans)[key := ComputePlans.UpdateEndDate(old(plans)[key], ComputeTasks(tasks, key))]
    {
      var p := plans[key];
      var ts := ComputeTasks(tasks, key);
      var ongoing := OngoingTasks(ts);
      var failedOrCanceled := FailedOrCanceledTasks(ts);
      if p.cancelationDate.Some? {
        p := p.(endDate := p.cancelationDate);
      } else if ongoing && !failedOrCanceled {
        p := p.(endDate := None);
      } else {
        var ended := EndedTasks(ts);
        if ended != {} {
          ghost var latest := SomeLatest(ts, ended);
          var last :| last in ended && forall k :: k in ended ==> ts[k].endDate.value <= ts[last].endDate.value;
          assert IsLatestEnd(ts, ts[last].endDate) by {
            forall k | k in ts && ts[k].endDate.Some? ensures ts[k].endDate.value <= ts[last].endDate.value {
              assert k in ended;
            }
          }
          p := p.(endDate := ts[last].endDate);
        } else {
          assert IsLatestEnd(ts, None) by {
            forall k | k in ts ensures ts[k].endDate.None? { assert k !in ended; }
          }
        }
      }
      plans := plans[key := p];
    }

    method RefreshDatesAndStatus(key: Key, now: Time) returns (ghost hint: Option<Key>)
      requires key in plans
      modifies this`plans
      ensures State() == RefreshPlan(old(State()), key, now, hint)
    {
      UpdateEndDate(key);
      hint := UpdateStatus(key, now);
    }

    /* ---------- events/sync.py ---------- */

    method OnCreateComputeplanEvent(key: Key, channel: Channel, name: string)
      modifies this`plans
      ensures forall now, hint ::
          Ok(State()) == Apply(old(State()), Delivery(CreatePlan(key, channel, name), now, hint))
    {
      if key !in plans {
        plans := plans[key := Plan(channel, name, PlanCreated, None, None, None, None)];
      }
    }

    method OnUpdateComputeplanEvent(key: Key, name: string, cancelationDate: Option<Time>, now: Time)
      returns (raised: Option<Error>, ghost hint: Option<Key>)
      modifies this`plans
      ensures Outcome(old(State()), Delivery(UpdatePlan(key, name, cancelationDate), now, hint), raised)
    {
      if key !in plans {
        return Some(DoesNotExist), None;
      }
      var p := plans[key];
      p := p.(cancelationDate := cancelationDate);
      p := p.(name := name);
      plans := plans[key := p];
      hint := RefreshDatesAndStatus(key, now);
      raised := None;
    }

    /** The handler returned normally with the new database, or raised what `Apply` raises. */
    ghost predicate Outcome(before: Db, d: Delivery, raised: Option<Error>)
      reads this
    {
      match Apply(before, d)
      case Ok(after) => raised.None? && State() == after
      case Err(error) => raised == Some(error)
    }

    method CreateComputetask(e: Event) returns (raised: Option<Error>)
      requires e.CreateTask?
      modifies this`tasks, this`links
      ensures match RegisterTask(old(State()), e)
              case Ok(after) => raised.None? && State() == after
              case Err(error) => raised == Some(error)
    {
      if e.function_ !in functions {
        return Some(DoesNotExist);
      }
      if e.plan !in plans || !(Parents(e.inputs) <= tasks.Keys) {
        return Some(InvalidData);
      }
      if e.key in tasks {
        return None;     // AlreadyExistsError, caught
      }
      raised := InsertRows(e);
    }

    /** ComputeTaskSerializer.create: the task, then its inputs in order, then its outputs. */
    method InsertRows(e: Event) returns (raised: Option<Error>)
      requires e.CreateTask? && e.function_ in functions && e.key !in tasks
      modifies this`tasks, this`links
      ensures tasks == old(tasks)[e.key := NewTask(e)]
      ensures match InsertTask(old(links), e.key, e.channel, e.inputs, e.outputs, functions[e.function_].inputKinds)
              case Ok(after) => raised.None? && links == after
              case Err(error) => raised == Some(error)
    {
      tasks := tasks[e.key := NewTask(e)];
      raised := InsertInputs(e.key, e.inputs, functions[e.function_].inputKinds);
      if raised.None? {
        InsertOutputs(e.key, e.channel, e.outputs);
      }
    }

    method InsertInputs(task: Key, inputs: seq<InputRow>, inputKinds: map<Ident, AssetKind>)
      returns (raised: Option<Error>)
      modifies this`links
      ensures match ResolveAll(old(links), inputs, inputKinds)
              case Ok(assets) => raised.None? && links == WithInputs(old(links), task, inputs, assets)
              case Err(error) => raised == Some(error)
    {
      hide Resolve, WithInput, NewInputs, NewAssets;
      ghost var l := links;
      ghost var assets: seq<Option<AssetRef>> := [];
      NothingInserted(l, task, inputs);
      for position := 0 to |inputs|
        invariant |assets| == position
        invariant ResolveAll(l, inputs[..position], inputKinds) == Ok(assets)
        invariant links == WithInputs(l, task, inputs[..position], assets)
      {
        InsertInputStep(l, task, inputs, assets, inputKinds);
        ghost var found := Resolve(links, inputs[position], inputKinds);
        raised := InsertInput(InputId(task, position), inputs[position], inputKinds);
        if raised.Some? {
          return;
        }
        assets := assets + [found.value];
      }
      assert inputs[..|inputs|] == inputs;
      raised := None;
    }

    /** One input row, and its asset when that is known already. */
    method InsertInput(id: InputId, input: InputRow, inputKinds: map<Ident, AssetKind>) returns (raised: Option<Error>)
      modifies this`links
      ensures match Resolve(old(links), input, inputKinds)
              case Ok(found) => raised.None? && links == WithInput(old(links), id, input, found)
              case Err(error) => raised == Some(error)
    {
      links := links.(inputs := links.inputs[id := input]);
      match input.source {
        case Direct(key) =>
          if input.identifier !in inputKinds {
            return Some(MissingKey);
          }
          links := links.(inputAssets := links.inputAssets[id := AssetRef(inputKinds[input.identifier], key)]);
        case FromParent(task, output) =>
          if OutputId(task, output) !in links.outputs {
            return Some(DoesNotExist);
          }
          var outputAssets := AssetsOf(links, OutputId(task, output));
          if outputAssets != [] {
            if input.identifier !in inputKinds {
              return Some(MissingKey);
            }
            var asset := AssetRef(inputKinds[input.identifier], outputAssets[0].key);
            links := links.(inputAssets := links.inputAssets[id := asset]);
          }
        case Unbound =>
      }
      raised := None;
    }

    method InsertOutputs(task: Key, channel: Channel, outputs: set<Ident>)
      modifies this`links
      ensures links == WithOutputs(old(links), task, channel, outputs)
    {
      hide WithOutputs;
      var remaining := outputs;
      NoOutputs(links, task, channel);
      assert outputs - remaining == {};
      while remaining != {}
        invariant remaining <= outputs
        invariant links == WithOutputs(old(links), task, channel, outputs - remaining)
        decreases |remaining|
      {
        var output :| output in remaining;
        OneMoreOutput(old(links), task, channel, outputs - remaining, output);
        assert outputs - (remaining - {output}) == (outputs - remaining) + {output};
        links := links.(outputs := links.outputs[OutputId(task, output) := channel]);
        remaining := remaining - {output};
      }
      assert outputs - remaining == outputs;
    }

    method OnCreateComputetaskEvent(e: Event, now: Time) returns (raised: Option<Error>, ghost hint: Option<Key>)
      requires e.CreateTask?
      modifies this`plans, this`tasks, this`links
      ensures Outcome(old(State()), Delivery(e, now, hint), raised)
    {
      hint := None;
      raised := CreateComputetask(e);
      if raised.None? {
        hint := RefreshDatesAndStatus(e.plan, now);
      }
    }

    method UpdateComputetask(key: Key, status: TaskStatus, startDate: Option<Time>, endDate: Option<Time>)
      requires key in tasks
      modifies this`tasks
      ensures var t := old(tasks)[key];
              tasks == old(tasks)[key := t.(status := status,
                                            startDate := if t.startDate.None? then startDate else t.startDate,
                                            endDate := if t.endDate.None? then endDate else t.endDate)]
    {
      var t := tasks[key];
      t := t.(status := status);
      if t.startDate.None? && startDate.Some? {
        t := t.(startDate := startDate);
      }
      if t.endDate.None? && endDate.Some? {
        t := t.(endDate := endDate);
      }
      tasks := tasks[key := t];
    }

    method OnUpdateComputetaskEvent(key: Key, plan: Key, status: TaskStatus, timestamp: Time, now: Time)
      returns (raised: Option<Error>, ghost hint: Option<Key>)
      modifies this`plans, this`tasks
      ensures Outcome(old(State()), Delivery(UpdateTask(key, plan, status, timestamp), now, hint), raised)
    {
      hide Refresh;
      var startDate: Option<Time>, endDate: Option<Time> := None, None;
      if status == Executing {
        startDate := Some(timestamp);
      } else if status in {Canceled, Done, Failed} {
        endDate := Some(timestamp);
      }
      if key !in tasks {
        return Some(DoesNotExist), None;
      }
      UpdateComputetask(key, status, startDate, endDate);
      if plan !in plans {
        return Some(DoesNotExist), None;
      }
      hint := RefreshDatesAndStatus(plan, now);
      raised := None;
    }

    /** Inserts the output asset, then one input asset per matching input. */
    method CreateComputetaskOutputAsset(channel: Channel, out: OutputId, asset: AssetRef)
      returns (raised: Option<Error>)
      modifies this`links
      ensures match InsertOutputAsset(old(links), channel, out, asset)
              case Ok(after) => raised.None? && links == after
              case Err(error) => raised == Some(error)
    {
      if out !in links.outputs || links.outputs[out] != channel {
        return Some(DoesNotExist);
      }
      links := links.(outputAssets := links.outputAssets[out := AssetsOf(links, out) + [asset]]);
      raised := CreateInputAssets(InputsFrom(links, out), asset);
    }

    method CreateInputAssets(matching: set<InputId>, asset: AssetRef) returns (raised: Option<Error>)
      modifies this`links
      ensures if matching !! old(links).inputAssets.Keys
              then raised.None? && links
                  == old(links).(inputAssets := old(links).inputAssets + SameAsset(matching, asset))
              else raised == Some(IntegrityError)
    {
      ghost var l := links;
      var remaining := matching;
      assert SameAsset(matching - remaining, asset) == map[];
      while remaining != {}
        invariant remaining <= matching
        invariant matching - remaining !! l.inputAssets.Keys
        invariant links == l.(inputAssets := l.inputAssets + SameAsset(matching - remaining, asset))
        decreases |remaining|
      {
        var id :| id in remaining;
        if id in links.inputAssets {
          return Some(IntegrityError);      // one-to-one
        }
        links := links.(inputAssets := links.inputAssets[id := asset]);
        assert matching - (remaining - {id}) == (matching - remaining) + {id};
        SameAssetStep(matching - remaining, id, asset);
        UnionUpdate(l.inputAssets, SameAsset(matching - remaining, asset), id, asset);
        remaining := remaining - {id};
      }
      assert matching - remaining == matching;
      raised := None;
    }

    method OnCreateFailureReportEvent(e: Event) returns (raised: Option<Error>)
      requires e.CreateFailureReport?
      modifies this`tasks, this`reports
      ensures match ReportFailure(old(State()), e)
              case Ok(after) => raised.None? && State() == after
              case Err(error) => raised == Some(error)
    {
      if e.errorType != InternalError {
        if e.logs.None? || e.owner.None? {
          return Some(InvalidData);
        }
        if e.key !in reports {
          reports := reports[e.key := FailureReport(e.logs.value, e.owner.value)];
        }
      }
      if e.onFunction {
        FailTasksOfFunction(e);
      } else {
        if e.key !in tasks {
          return Some(DoesNotExist);
        }
        tasks := tasks[e.key := FailedTask(tasks[e.key], e.errorType, e.logs, e.owner)];
      }
      raised := None;
    }

    method FailTasksOfFunction(e: Event)
      requires e.CreateFailureReport?
      modifies this`tasks
      ensures tasks == FailTasks(old(tasks), TasksOfFunction(old(tasks), e.key), e)
    {
      var failing := TasksOfFunction(tasks, e.key);
      var remaining := failing;
      assert tasks == FailTasks(tasks, failing - remaining, e);
      while remaining != {}
        invariant remaining <= failing <= old(tasks).Keys
        invariant tasks == FailTasks(old(tasks), failing - remaining, e)
        decreases |remaining|
      {
        var key :| key in remaining;
        tasks := tasks[key := FailedTask(tasks[key], e.errorType, e.logs, e.owner)];
        assert tasks == FailTasks(old(tasks), failing - (remaining - {key}), e);
        remaining := remaining - {key};
      }
      assert failing - remaining == failing;
    }

    method OnOtherEvent(e: Event) returns (raised: Option<Error>)
      requires e.CreateFunction? || e.UpdateFunction? || e.CreateModel? || e.DisableModel? || e.NothingToSync?
      modifies this`functions, this`models
      ensures forall now, hint :: Outcome(old(State()), Delivery(e, now, hint), raised)
    {
      raised := None;
      match e {
        case CreateFunction(key, row) =>
          if key !in functions {
            functions := functions[key := row];
          }
        case UpdateFunction(key, name, status, address, checksum) =>
          if key !in functions {
            return Some(DoesNotExist);
          }
          var f := functions[key];
          if name != "" {
            f := f.(name := name);
          }
          if status != "" {
            f := f.(status := status);
          }
          if address.Some? && address.value != "" && checksum.Some? && checksum.value != "" {
            f := f.(image := Some((address.value, checksum.value)));
          }
          functions := functions[key := f];
        case CreateModel(key, task, address) =>
          if task !in tasks {
            return Some(InvalidData);
          }
          if key !in models {
            models := models[key := ModelRow(task, address)];
          }
        case DisableModel(key) =>
          if key !in models {
            return Some(DoesNotExist);
          }
          models := models[key := models[key].(address := None)];
        case NothingToSync =>
      }
    }

    /** The callback of an event; after an exception the tables may be half written. */
    method Callback(e: Event, now: Time) returns (raised: Option<Error>, ghost hint: Option<Key>)
      modifies this
      ensures match Apply(old(State()), Delivery(e, now, hint))
              case Ok(after) => raised.None? && State() == after
              case Err(error) => raised == Some(error)
    {
      hide SyncCreatePlan, SyncUpdatePlan, SyncUpdateTask, RefreshPlan, RegisterTask, InsertOutputAsset, ReportFailure,
        NewPlan, UpdatedFunction;
      hint := None;
      match e {
        case CreatePlan(key, channel, name) =>
          OnCreateComputeplanEvent(key, channel, name);
          raised := None;
        case UpdatePlan(key, name, cancelationDate) =>
          raised, hint := OnUpdateComputeplanEvent(key, name, cancelationDate, now);
        case CreateTask(_, _, _, _, _, _, _) =>
          raised, hint := OnCreateComputetaskEvent(e, now);
        case UpdateTask(key, plan, status, timestamp) =>
          raised, hint := OnUpdateComputetaskEvent(key, plan, status, timestamp, now);
        case CreateOutputAsset(channel, output, asset) =>
          raised := CreateComputetaskOutputAsset(channel, output, asset);
        case CreateFailureReport(_, _, _, _, _) =>
          raised := OnCreateFailureReportEvent(e);
        case _ =>
          raised := OnOtherEvent(e);
      }
    }

    /** One transaction: an exception leaves the database as it was. */
    method SyncOnEventMessage(e: Event, now: Time) returns (raised: Option<Error>, ghost hint: Option<Key>)
      modifies this
      ensures match Apply(old(State()), Delivery(e, now, hint))
              case Ok(after) => raised.None? && State() == after
              case Err(error) => raised == Some(error) && State() == old(State())
    {
      hide Apply;
      var savepoint := State();
      raised, hint := Callback(e, now);
      if raised.Some? {
        plans, tasks, functions := savepoint.plans, savepoint.tasks, savepoint.functions;
        models, reports, links := savepoint.models, savepoint.reports, savepoint.links;
      }
    }
  }

  lemma ResolveStep(l: Links, rows: seq<InputRow>, n: nat, kinds: map<Ident, AssetKind>)
    requires n < |rows|
    ensures var before, upTo := ResolveAll(l, rows[..n], kinds), ResolveAll(l, rows[..n + 1], kinds);
            var next := Resolve(l, rows[n], kinds);
            && (before.Ok? && next.Ok? ==> upTo == Ok(before.value + [next.value]))
            && (before.Ok? && next.Err? ==> upTo == Err(next.error) && ResolveAll(l, rows, kinds) == Err(next.error))
  {
    assert rows[..n + 1][..n] == rows[..n];
    if ResolveAll(l, rows[..n], kinds).Ok? && Resolve(l, rows[n], kinds).Err? {
      FirstErrorStays(l, rows, n + 1, kinds);
    }
  }

  lemma {:induction false} FirstErrorStays(l: Links, rows: seq<InputRow>, n: nat, kinds: map<Ident, AssetKind>)
    requires n <= |rows| && ResolveAll(l, rows[..n], kinds).Err?
    ensures ResolveAll(l, rows, kinds) == ResolveAll(l, rows[..n], kinds)
    decreases |rows|
  {
    if n == |rows| {
      assert rows[..n] == rows;
    } else {
      var init := rows[..|rows| - 1];
      assert init[..n] == rows[..n];
      FirstErrorStays(l, init, n, kinds);
    }
  }

  function WithInput(l: Links, id: InputId, input: InputRow, found: Option<AssetRef>): Links {
    l.(inputs := l.inputs[id := input],
       inputAssets := if found.Some? then l.inputAssets[id := found.value] else l.inputAssets)
  }

  lemma NothingInserted(l: Links, task: Key, rows: seq<InputRow>)
    ensures WithInputs(l, task, rows[..0], []) == l
  {
  }

  lemma NewInputsStep(task: Key, rows: seq<InputRow>, n: nat)
    requires n < |rows|
    ensures NewInputs(task, rows[..n + 1]) == NewInputs(task, rows[..n])[InputId(task, n) := rows[n]]
  {
  }

  lemma NewAssetsStep(task: Key, assets: seq<Option<AssetRef>>, found: Option<AssetRef>)
    ensures NewAssets(task, assets + [found])
         == if found.Some? then NewAssets(task, assets)[InputId(task, |assets|) := found.value]
             else NewAssets(task, assets)
  {
  }

  lemma WithInputsStep(l: Links, task: Key, rows: seq<InputRow>, assets: seq<Option<AssetRef>>, found: Option<AssetRef>)
    requires |assets| < |rows|
    ensures WithInputs(l, task, rows[..|assets| + 1], assets + [found])
         == WithInput(WithInputs(l, task, rows[..|assets|], assets), InputId(task, |assets|), rows[|assets|], found)
  {
    var n := |assets|;
    var id := InputId(task, n);
    NewInputsStep(task, rows, n);
    NewAssetsStep(task, assets, found);
    UnionUpdate(l.inputs, NewInputs(task, rows[..n]), id, rows[n]);
    if found.Some? {
      UnionUpdate(l.inputAssets, NewAssets(task, assets), id, found.value);
    }
  }

  /** Inserting the next input: its exception is that of the whole task, its asset extends the resolved ones. */
  lemma InsertInputStep(l: Links, task: Key, rows: seq<InputRow>, assets: seq<Option<AssetRef>>,
                        kinds: map<Ident, AssetKind>)
    requires |assets| < |rows| && ResolveAll(l, rows[..|assets|], kinds) == Ok(assets)
    ensures var n := |assets|;
            var current := WithInputs(l, task, rows[..n], assets);
            match Resolve(current, rows[n], kinds)
            case Err(error) => ResolveAll(l, rows, kinds) == Err(error)
            case Ok(found) =>
              && ResolveAll(l, rows[..n + 1], kinds) == Ok(assets + [found])
              && WithInputs(l, task, rows[..n + 1], assets + [found])
                   == WithInput(current, InputId(task, n), rows[n], found)
  {
    var n := |assets|;
    var current := WithInputs(l, task, rows[..n], assets);
    assert Resolve(current, rows[n], kinds) == Resolve(l, rows[n], kinds);
    ResolveStep(l, rows, n, kinds);
    if Resolve(l, rows[n], kinds).Ok? {
      WithInputsStep(l, task, rows, assets, Resolve(l, rows[n], kinds).value);
    }
  }

  lemma NoOutputs(l: Links, task: Key, channel: Channel)
    ensures WithOutputs(l, task, channel, {}) == l
  {
  }

  lemma OneMoreOutput(l: Links, task: Key, channel: Channel, outputs: set<Ident>, output: Ident)
    ensures var before := WithOutputs(l, task, channel, outputs);
            WithOutputs(l, task, channel, outputs + {output})
            == before.(outputs := before.outputs[OutputId(task, output) := channel])
  {
    assert OutputIds(task, outputs + {output}) == OutputIds(task, outputs) + {OutputId(task, output)};
  }
}
