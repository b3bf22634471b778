/** The order in which tasks are created and output assets arrive does not matter: two well-formed streams
    of the same events leave the same link tables. */
module Interleavings {
  import opened Common
  import opened Rows
  import opened TaskLinks
  import opened ComputePlans
  import opened EventSync
  import opened StreamInvariants

  /** One row of the tables that do not depend on arrival order. */
  datatype Fact =
    | InputFact(id: InputId, row: InputRow)
    | OutputFact(out: OutputId, channel: Channel)
    | TaskFact(task: Key, function_: Key)
    | FunctionFact(key: Key, kinds: map<Ident, AssetKind>)
    | AssetFact(out: OutputId, asset: AssetRef)

  predicate Holds(db: Db, f: Fact) {
    match f
    case InputFact(id, row) => id in db.links.inputs && db.links.inputs[id] == row
    case OutputFact(out, channel) => out in db.links.outputs && db.links.outputs[out] == channel
    case TaskFact(task, function_) => task in db.tasks && db.tasks[task].function_ == function_
    case FunctionFact(key, kinds) => key in db.functions && db.functions[key].inputKinds == kinds
    case AssetFact(out, asset) => AssetsOf(db.links, out) == [asset]
  }

  /** The rows an event brings. */
  predicate Gives(e: Event, f: Fact) {
    match e
    case CreateTask(key, channel, _, function_, _, inputs, outputs) =>
      (match f
       case InputFact(id, row) => id.task == key && id.position < |inputs| && row == inputs[id.position]
       case OutputFact(out, c) => out.task == key && out.identifier in outputs && c == channel
       case TaskFact(task, fn) => task == key && fn == function_
       case _ => false)
    case CreateFunction(key, row) => f == FunctionFact(key, row.inputKinds)
    case CreateOutputAsset(_, output, asset) => f == AssetFact(output, asset)
    case _ => false
  }

  /** The event inserts its rows, rather than finding that they exist. */
  predicate Fresh(db: Db, e: Event) {
    && (e.CreateTask? ==> e.key !in db.tasks)
    && (e.CreateFunction? ==> e.key !in db.functions)
  }

  /** A created task's rows, before its plan is brought up to date. */
  lemma RegisteredFacts(db: Db, e: Event, clock: Time, f: Fact)
    requires LinksSound(db) && WellFormed(db, e, clock) && e.CreateTask? && RegisterTask(db, e).Ok?
    ensures Holds(RegisterTask(db, e).value, f) <==> Holds(db, f) || (Fresh(db, e) && Gives(e, f))
  {
    hide WellFormed, Joined, NewAssets, ResolveAll;
    if e.key !in db.tasks {
      if f.InputFact? {
        assert f.id in InputIds(e.key, |e.inputs|) <==> f.id.task == e.key && f.id.position < |e.inputs|;
      } else if f.OutputFact? {
        assert f.out in OutputIds(e.key, e.outputs) <==> f.out.task == e.key && f.out.identifier in e.outputs;
      }
    }
  }

  lemma CreateTaskFacts(db: Db, d: Delivery, clock: Time, f: Fact)
    requires LinksSound(db) && WellFormed(db, d.event, clock) && d.event.CreateTask? && Apply(db, d).Ok?
    ensures Holds(Apply(db, d).value, f) <==> Holds(db, f) || (Fresh(db, d.event) && Gives(d.event, f))
  {
    hide Refresh, WellFormed, LinksSound, RegisterTask, Gives, SyncUpdatePlan, SyncUpdateTask, ReportFailure,
      InsertOutputAsset;
    RegisteredFacts(db, d.event, clock, f);
  }

  lemma OutputAssetFacts(db: Db, d: Delivery, f: Fact)
    requires d.event.CreateOutputAsset? && AssetsOf(db.links, d.event.output) == [] && Apply(db, d).Ok?
    ensures Holds(Apply(db, d).value, f) <==> Holds(db, f) || Gives(d.event, f)
  {
    hide SyncUpdatePlan, SyncUpdateTask, RegisterTask, ReportFailure;
    var after := Apply(db, d).value;
    assert AssetsOf(after.links, d.event.output) == [d.event.asset];
    if f.AssetFact? && f.out == d.event.output {
      assert [f.asset] == [d.event.asset] <==> f.asset == d.event.asset by {
        assert [f.asset][0] == f.asset;
      }
    }
  }

  lemma SameTablesSameFacts(db: Db, db': Db, f: Fact)
    requires SameBase(db, db')
    ensures Holds(db', f) <==> Holds(db, f)
  {
  }

  /** The events that bring no fact. */
  predicate BringsNothing(e: Event) {
    !e.CreateTask? && !e.CreateFunction? && !e.CreateOutputAsset?
  }

  ghost predicate SameBase(db: Db, db': Db) {
    && db'.links == db.links && db'.tasks.Keys == db.tasks.Keys && db'.functions.Keys == db.functions.Keys
    && (forall k :: k in db.tasks ==> db'.tasks[k].function_ == db.tasks[k].function_)
    && (forall k :: k in db.functions ==> db'.functions[k].inputKinds == db.functions[k].inputKinds)
  }

  lemma UpdateKeepsBase(db: Db, d: Delivery)
    requires Apply(db, d).Ok? && (d.event.UpdatePlan? || d.event.UpdateTask?)
    ensures SameBase(db, Apply(db, d).value)
  {
    hide Refresh, RegisterTask, ReportFailure, InsertOutputAsset, SyncCreatePlan;
  }

  lemma ReportKeepsBase(db: Db, e: Event)
    requires e.CreateFailureReport? && ReportFailure(db, e).Ok?
    ensures SameBase(db, ReportFailure(db, e).value)
  {
  }

  lemma FunctionKeepsBase(db: Db, d: Delivery)
    requires Apply(db, d).Ok? && d.event.UpdateFunction?
    ensures SameBase(db, Apply(db, d).value)
  {
    hide SyncCreatePlan, SyncUpdatePlan, SyncUpdateTask, RegisterTask, InsertOutputAsset, ReportFailure;
  }

  lemma ModelKeepsBase(db: Db, d: Delivery)
    requires Apply(db, d).Ok? && (d.event.CreateModel? || d.event.DisableModel? || d.event.NothingToSync?)
    ensures SameBase(db, Apply(db, d).value)
  {
    hide SyncCreatePlan, SyncUpdatePlan, SyncUpdateTask, RegisterTask, InsertOutputAsset, ReportFailure,
      UpdatedFunction;
  }

  lemma PlanKeepsBase(db: Db, d: Delivery)
    requires d.event.CreatePlan?
    ensures SameBase(db, Apply(db, d).value)
  {
    hide SyncUpdatePlan, SyncUpdateTask, RegisterTask, InsertOutputAsset, ReportFailure, UpdatedFunction, NewPlan;
  }

  lemma RestKeepsBase(db: Db, d: Delivery)
    requires Apply(db, d).Ok? && BringsNothing(d.event) && !d.event.UpdatePlan? && !d.event.UpdateTask?
    ensures SameBase(db, Apply(db, d).value)
  {
    hide SameBase, SyncCreatePlan, SyncUpdatePlan, SyncUpdateTask, RegisterTask, InsertOutputAsset, ReportFailure,
      UpdatedFunction;
    if d.event.CreateFailureReport? {
      ReportKeepsBase(db, d.event);
    } else if d.event.UpdateFunction? {
      FunctionKeepsBase(db, d);
    } else if d.event.CreatePlan? {
      PlanKeepsBase(db, d);
    } else {
      ModelKeepsBase(db, d);
    }
  }

  lemma OtherEventFacts(db: Db, d: Delivery, clock: Time, f: Fact)
    requires WellFormed(db, d.event, clock) && !d.event.CreateTask? && Apply(db, d).Ok?
    ensures Holds(Apply(db, d).value, f) <==> Holds(db, f) || (Fresh(db, d.event) && Gives(d.event, f))
  {
    hide Apply, Holds;
    var e := d.event;
    if e.CreateOutputAsset? {
      OutputAssetFacts(db, d, f);
    } else if e.CreateFunction? {
      CreateFunctionFacts(db, d, f);
    } else {
      if e.UpdatePlan? || e.UpdateTask? {
        UpdateKeepsBase(db, d);
      } else {
        RestKeepsBase(db, d);
      }
      SameTablesSameFacts(db, Apply(db, d).value, f);
    }
  }

  lemma CreateFunctionFacts(db: Db, d: Delivery, f: Fact)
    requires d.event.CreateFunction?
    ensures Holds(Apply(db, d).value, f) <==> Holds(db, f) || (Fresh(db, d.event) && Gives(d.event, f))
  {
    hide SyncUpdatePlan, SyncUpdateTask, RegisterTask, ReportFailure, InsertOutputAsset;
  }

  lemma StepFacts(db: Db, d: Delivery, clock: Time, f: Fact)
    requires Sound(db, clock) && WellFormed(db, d.event, clock) && Apply(db, d).Ok?
    ensures Holds(Apply(db, d).value, f) <==> Holds(db, f) || (Fresh(db, d.event) && Gives(d.event, f))
  {
    hide LinksSound, PlansSound, KindsSound, TasksSound, Apply, WellFormed;
    if d.event.CreateTask? {
      CreateTaskFacts(db, d, clock, f);
    } else {
      OtherEventFacts(db, d, clock, f);
    }
  }

  /** The orchestrator creates a task or a function once, whatever else it sends. */
  predicate CreatedOnce(ds: seq<Delivery>) {
    forall i, j :: 0 <= i < |ds| && 0 <= j < |ds| && SameCreation(ds[i].event, ds[j].event) ==>
        ds[i].event == ds[j].event
  }

  predicate SameCreation(e: Event, e': Event) {
    || (e.CreateTask? && e'.CreateTask? && e.key == e'.key)
    || (e.CreateFunction? && e'.CreateFunction? && e.key == e'.key)
  }

  /** Where a row of the final tables comes from. */
  lemma {:induction false} FactsComeFromEvents(db: Db, ds: seq<Delivery>, clock: Time, f: Fact)
    requires Sound(db, clock) && WellFormedStream(db, ds, clock)
    ensures Run(db, ds).Ok?
    ensures Holds(Run(db, ds).value, f) && !Holds(db, f) ==>
              exists i :: 0 <= i < |ds| && Gives(ds[i].event, f) && Fresh(db, ds[i].event)
    decreases |ds|
  {
    hide Sound, Apply, WellFormed, Holds, Gives;
    WellFormedStreamSound(db, ds, clock);
    if ds != [] {
      var before, n := ds[..|ds| - 1], |ds| - 1;
      FactsComeFromEvents(db, before, clock, f);
      WellFormedStreamSound(db, before, clock);
      StepFacts(Run(db, before).value, ds[n], ClockAfter(before, clock), f);
      if Holds(Run(db, ds).value, f) && !Holds(db, f) {
        if Holds(Run(db, before).value, f) {
          var i :| 0 <= i < |before| && Gives(before[i].event, f) && Fresh(db, before[i].event);
          assert ds[i] == before[i];
        } else {
          StillFresh(db, before, clock, ds[n].event);
        }
      }
    }
  }

  lemma StillFresh(db: Db, ds: seq<Delivery>, clock: Time, e: Event)
    requires Sound(db, clock) && WellFormedStream(db, ds, clock)
    requires Run(db, ds).Ok? && Fresh(Run(db, ds).value, e)
    ensures Fresh(db, e)
  {
    hide Sound, WellFormed, Apply;
    if e.CreateTask? && e.key in db.tasks {
      FactsStay(db, ds, clock, TaskFact(e.key, db.tasks[e.key].function_));
    }
    if e.CreateFunction? && e.key in db.functions {
      FactsStay(db, ds, clock, FunctionFact(e.key, db.functions[e.key].inputKinds));
    }
  }

  lemma {:induction false} FactsStay(db: Db, ds: seq<Delivery>, clock: Time, f: Fact)
    requires Sound(db, clock) && WellFormedStream(db, ds, clock) && Holds(db, f)
    ensures Run(db, ds).Ok? && Holds(Run(db, ds).value, f)
    decreases |ds|
  {
    hide Sound, WellFormed, Apply, Holds;
    WellFormedStreamSound(db, ds, clock);
    if ds != [] {
      var before := ds[..|ds| - 1];
      FactsStay(db, before, clock, f);
      WellFormedStreamSound(db, before, clock);
      StepFacts(Run(db, before).value, ds[|ds| - 1], ClockAfter(before, clock), f);
    }
  }

  /** Every event of the stream has its rows in the final tables. */
  lemma {:induction false} EventsGiveFacts(db: Db, ds: seq<Delivery>, clock: Time, i: nat, f: Fact)
    requires Sound(db, clock) && WellFormedStream(db, ds, clock) && CreatedOnce(ds)
    requires i < |ds| && Gives(ds[i].event, f) && Fresh(db, ds[i].event)
    ensures Run(db, ds).Ok? && Holds(Run(db, ds).value, f)
    decreases |ds|
  {
    hide Sound, WellFormed, Apply, Holds, Gives;
    WellFormedStreamSound(db, ds, clock);
    var before, n := ds[..|ds| - 1], |ds| - 1;
    WellFormedStreamSound(db, before, clock);
    var mid := Run(db, before).value;
    StepFacts(mid, ds[n], ClockAfter(before, clock), f);
    if i < n {
      EventsGiveFacts(db, before, clock, i, f);
    } else if !Fresh(mid, ds[n].event) {
      var j := EarlierCreation(db, before, clock, ds[n].event);
      assert SameCreation(ds[j].event, ds[n].event);
      EventsGiveFacts(db, before, clock, j, f);
    }
  }

  lemma EarlierCreation(db: Db, ds: seq<Delivery>, clock: Time, e: Event) returns (j: nat)
    requires Sound(db, clock) && WellFormedStream(db, ds, clock)
    requires Run(db, ds).Ok? && Fresh(db, e) && !Fresh(Run(db, ds).value, e)
    ensures j < |ds| && SameCreation(ds[j].event, e) && Fresh(db, ds[j].event)
  {
    hide Sound, WellFormed, Apply;
    var after := Run(db, ds).value;
    var f := if e.CreateTask? then TaskFact(e.key, after.tasks[e.key].function_)
             else FunctionFact(e.key, after.functions[e.key].inputKinds);
    FactsComeFromEvents(db, ds, clock, f);
    j :| 0 <= j < |ds| && Gives(ds[j].event, f) && Fresh(db, ds[j].event);
  }

  /** The final link tables as a set of facts do not depend on the order of the stream. */
  lemma SameFacts(db: Db, ds: seq<Delivery>, ds': seq<Delivery>, clock: Time, f: Fact)
    requires Sound(db, clock) && WellFormedStream(db, ds, clock) && WellFormedStream(db, ds', clock)
    requires CreatedOnce(ds') && forall i :: 0 <= i < |ds| ==> exists j :: 0 <= j < |ds'| && ds'[j].event == ds[i].event
    requires Run(db, ds).Ok? && Run(db, ds').Ok?
    ensures Holds(Run(db, ds).value, f) ==> Holds(Run(db, ds').value, f)
  {
    hide Sound, WellFormed, Apply, Holds, Gives, Run;
    if Holds(Run(db, ds).value, f) {
      if Holds(db, f) {
        FactsStay(db, ds', clock, f);
      } else {
        FactsComeFromEvents(db, ds, clock, f);
        var i :| 0 <= i < |ds| && Gives(ds[i].event, f) && Fresh(db, ds[i].event);
        var j :| 0 <= j < |ds'| && ds'[j].event == ds[i].event;
        EventsGiveFacts(db, ds', clock, j, f);
      }
    }
  }

  lemma SameFactsSameTables(a: Db, b: Db)
    requires LinksSound(a) && LinksSound(b)
    requires forall f :: Holds(a, f) <==> Holds(b, f)
    ensures a.links.inputs == b.links.inputs && a.links.outputs == b.links.outputs
    ensures a.links.outputAssets == b.links.outputAssets
    ensures forall id :: DeclaredKind(a, id) == DeclaredKind(b, id)
  {
    hide Materialised;
    FactsInclude(a, b);
    FactsInclude(b, a);
    forall id ensures DeclaredKind(a, id) == DeclaredKind(b, id) {
      if id in a.links.inputs && id.task in a.tasks {
        var fn := a.tasks[id.task].function_;
        assert Holds(a, TaskFact(id.task, fn));
        if fn in a.functions {
          assert Holds(a, FunctionFact(fn, a.functions[fn].inputKinds));
        }
        if fn in b.functions {
          assert Holds(b, FunctionFact(fn, b.functions[fn].inputKinds));
        }
      }
      if id in b.links.inputs && id.task in b.tasks {
        assert Holds(b, TaskFact(id.task, b.tasks[id.task].function_));
      }
    }
  }

  lemma FactsInclude(a: Db, b: Db)
    requires LinksSound(a) && LinksSound(b)
    requires forall f :: Holds(a, f) ==> Holds(b, f)
    ensures forall id :: id in a.links.inputs ==> id in b.links.inputs && b.links.inputs[id] == a.links.inputs[id]
    ensures forall out :: out in a.links.outputs ==>
        out in b.links.outputs && b.links.outputs[out] == a.links.outputs[out]
    ensures forall out :: out in a.links.outputAssets ==>
              out in b.links.outputAssets && b.links.outputAssets[out] == a.links.outputAssets[out]
  {
    hide Materialised;
    forall id | id in a.links.inputs ensures id in b.links.inputs && b.links.inputs[id] == a.links.inputs[id] {
      assert Holds(a, InputFact(id, a.links.inputs[id]));
    }
    forall out | out in a.links.outputs ensures out in b.links.outputs && b.links.outputs[out] == a.links.outputs[out] {
      assert Holds(a, OutputFact(out, a.links.outputs[out]));
    }
    forall out | out in a.links.outputAssets
      ensures out in b.links.outputAssets && b.links.outputAssets[out] == a.links.outputAssets[out]
    {
      var assets := a.links.outputAssets[out];
      assert assets == [assets[0]];
      assert Holds(a, AssetFact(out, assets[0]));
    }
  }

  /** Every input that names an output with an asset declares the kind of that asset. */
  predicate KindsDeclared(db: Db) {
    forall id :: id in db.links.inputs && db.links.inputs[id].source.FromParent? ==>
      var assets := AssetsOf(db.links, OutputId(db.links.inputs[id].source.task, db.links.inputs[id].source.output));
      assets != [] ==> DeclaredKind(db, id) == Some(assets[0].kind)
  }

  lemma SameResolution(a: Db, b: Db, id: InputId)
    requires LinksSound(a) && LinksSound(b) && KindsSound(a) && KindsSound(b) && KindsDeclared(a)
    requires a.links.inputs == b.links.inputs && a.links.outputAssets == b.links.outputAssets
    requires forall i :: DeclaredKind(a, i) == DeclaredKind(b, i)
    ensures AssetAt(a.links, id) == AssetAt(b.links, id)
  {
    if id in a.links.inputs {
      assert Materialised(a.links, id) && Materialised(b.links, id);
      if id in a.links.inputAssets {
        assert SoundKind(a, id) && SoundKind(b, id);
      }
    }
  }

  /** Two well-formed streams of the same events, in any two orders and with any deliveries in between,
      leave the same link tables: the same inputs, outputs, output assets and resolved input assets. */
  lemma OrderIndependence(db: Db, ds: seq<Delivery>, ds': seq<Delivery>, clock: Time)
    requires Sound(db, clock) && WellFormedStream(db, ds, clock) && WellFormedStream(db, ds', clock)
    requires CreatedOnce(ds) && CreatedOnce(ds')
    requires forall i :: 0 <= i < |ds| ==> exists j :: 0 <= j < |ds'| && ds'[j].event == ds[i].event
    requires forall j :: 0 <= j < |ds'| ==> exists i :: 0 <= i < |ds| && ds[i].event == ds'[j].event
    ensures Run(db, ds).Ok? && Run(db, ds').Ok?
    ensures KindsDeclared(Run(db, ds).value) ==> Run(db, ds).value.links == Run(db, ds').value.links
  {
    hide WellFormed, Apply, Run, Holds, LinksSound, PlansSound, TasksSound, KindsSound, KindsDeclared;
    WellFormedStreamSound(db, ds, clock);
    WellFormedStreamSound(db, ds', clock);
    var a, b := Run(db, ds).value, Run(db, ds').value;
    forall f ensures Holds(a, f) <==> Holds(b, f) {
      SameFacts(db, ds, ds', clock, f);
      SameFacts(db, ds', ds, clock, f);
    }
    SameFactsSameTables(a, b);
    if KindsDeclared(a) {
      forall id ensures AssetAt(a.links, id) == AssetAt(b.links, id) {
        SameResolution(a, b, id);
      }
      SameInputAssets(a.links, b.links);
    }
  }
}
