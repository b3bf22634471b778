/** backend/api/events/reactor.py: the consumer applies an event in one transaction and saves its position
    afterwards, so that a crash in between delivers the event again. */
module Reactor {
  import opened Common
  import opened Rows
  import opened ComputePlans
  import opened TaskLinks
  import opened EventSync
  import opened Handlers

  /* ---------- delivering an event twice ---------- */

  lemma RefreshPlanIdempotent(db: Db, plan: Key, now: Time, hint: Option<Key>, now': Time, hint': Option<Key>)
    requires plan in db.plans
    ensures var once := RefreshPlan(db, plan, now, hint);
            RefreshPlan(once, plan, now', hint') == once
  {
    hide Refresh;
    RefreshIdempotent(db.plans[plan], ComputeTasks(db.tasks, plan), now, hint, now', hint');
  }

  lemma ReplayUpdatePlan(db: Db, key: Key, name: string, cancelationDate: Option<Time>,
                         now: Time, hint: Option<Key>, now': Time, hint': Option<Key>)
    requires key in db.plans
    ensures var once := SyncUpdatePlan(db, key, name, cancelationDate, now, hint);
            SyncUpdatePlan(once, key, name, cancelationDate, now', hint') == once
  {
    var written := db.(plans := db.plans[key := db.plans[key].(name := name, cancelationDate := cancelationDate)]);
    var once := RefreshPlan(written, key, now, hint);
    assert once.plans[key].(name := name, cancelationDate := cancelationDate) == once.plans[key];
    assert once.plans[key := once.plans[key]] == once.plans;
    hide Refresh;
    RefreshPlanIdempotent(written, key, now, hint, now', hint');
  }

  lemma ReplayUpdateTask(db: Db, key: Key, plan: Key, status: TaskStatus, timestamp: Time,
                         now: Time, hint: Option<Key>, now': Time, hint': Option<Key>)
    requires key in db.tasks && plan in db.plans
    ensures var once := SyncUpdateTask(db, key, plan, status, timestamp, now, hint);
            SyncUpdateTask(once, key, plan, status, timestamp, now', hint') == once
  {
    hide Refresh;
    var written := db.(tasks := db.tasks[key := UpdatedTask(db.tasks[key], status, timestamp)]);
    assert written.tasks[key := UpdatedTask(written.tasks[key], status, timestamp)] == written.tasks;
    RefreshPlanIdempotent(written, plan, now, hint, now', hint');
  }

  lemma ReplayCreateTask(db: Db, d: Delivery, d': Delivery)
    requires d.event.CreateTask? && d'.event == d.event && Apply(db, d).Ok?
    ensures Apply(Apply(db, d).value, d') == Apply(db, d)
  {
    hide Refresh, InsertTask;
    var registered := RegisterTask(db, d.event).value;
    RefreshPlanIdempotent(registered, d.event.plan, d.now, d.hint, d'.now, d'.hint);
  }

  lemma ReplayFailureReport(db: Db, e: Event)
    requires e.CreateFailureReport? && ReportFailure(db, e).Ok?
    ensures ReportFailure(ReportFailure(db, e).value, e) == ReportFailure(db, e)
  {
    var once := ReportFailure(db, e).value;
    if e.onFunction {
      assert TasksOfFunction(once.tasks, e.key) == TasksOfFunction(db.tasks, e.key);
      assert FailTasks(once.tasks, TasksOfFunction(once.tasks, e.key), e) == once.tasks;
    } else {
      assert once.tasks[e.key := once.tasks[e.key]] == once.tasks;
    }
  }

  lemma ReplayOther(db: Db, d: Delivery, d': Delivery)
    requires d'.event == d.event && Apply(db, d).Ok?
    requires d.event.CreatePlan? || d.event.CreateFunction? || d.event.UpdateFunction? || d.event.CreateModel?
             || d.event.DisableModel? || d.event.NothingToSync?
    ensures Apply(Apply(db, d).value, d') == Apply(db, d)
  {
    hide SyncUpdatePlan, SyncUpdateTask, RegisterTask, ReportFailure, InsertOutputAsset;
    var once := Apply(db, d).value;
    match d.event {
      case UpdateFunction(key, name, status, address, checksum) =>
        assert once.functions[key := once.functions[key]] == once.functions;
      case DisableModel(key) =>
        assert once.models[key := once.models[key]] == once.models;
      case _ =>
    }
  }

  /** A second delivery of an output asset raises when an input has been linked, and otherwise inserts a
      second row: it never leaves the database as the first delivery did. */
  lemma ReplayOutputAsset(db: Db, d: Delivery, d': Delivery)
    requires d.event.CreateOutputAsset? && d'.event == d.event && Apply(db, d).Ok?
    ensures var once := Apply(db, d).value;
            var twice := Apply(once, d');
            && (twice.Ok? <==> InputsFrom(db.links, d.event.output) == {})
            && (twice.Err? ==> twice.error == IntegrityError)
            && (twice.Ok? ==> |AssetsOf(twice.value.links, d.event.output)| == |AssetsOf(db.links, d.event.output)| + 2)
            && twice != Ok(once)
  {
    var e := d.event;
    var once := InsertOutputAsset(db.links, e.channel, e.output, e.asset).value;
    assert InputsFrom(once, e.output) == InputsFrom(db.links, e.output);
    if id :| id in InputsFrom(db.links, e.output) {
      assert id in once.inputAssets;
      assert !(InputsFrom(once, e.output) !! once.inputAssets.Keys);
    }
  }

  /** sync_on_event_message calls itself idempotent: whatever the database, the clock and the rows the
      database picks, a second delivery changes nothing and raises nothing exactly when the event is not
      the creation of an output asset. */
  lemma ReplayExact(db: Db, d: Delivery, d': Delivery)
    requires d'.event == d.event && Apply(db, d).Ok?
    ensures Apply(Apply(db, d).value, d') == Apply(db, d) <==> !d.event.CreateOutputAsset?
  {
    hide SyncUpdatePlan, SyncUpdateTask, RegisterTask, ReportFailure, InsertOutputAsset, RefreshPlan;
    match d.event {
      case UpdatePlan(key, name, cancelationDate) =>
        ReplayUpdatePlan(db, key, name, cancelationDate, d.now, d.hint, d'.now, d'.hint);
        SyncUpdatePlanKeys(db, key, name, cancelationDate, d.now, d.hint);
      case UpdateTask(key, plan, status, timestamp) =>
        ReplayUpdateTask(db, key, plan, status, timestamp, d.now, d.hint, d'.now, d'.hint);
        SyncUpdateTaskKeys(db, key, plan, status, timestamp, d.now, d.hint);
      case CreateTask(_, _, _, _, _, _, _) => ReplayCreateTask(db, d, d');
      case CreateFailureReport(_, _, _, _, _) => ReplayFailureReport(db, d.event);
      case CreateOutputAsset(_, _, _) => ReplayOutputAsset(db, d, d');
      case _ => ReplayOther(db, d, d');
    }
  }

  lemma SyncUpdatePlanKeys(db: Db, key: Key, name: string, cancelationDate: Option<Time>, now: Time, hint: Option<Key>)
    requires key in db.plans
    ensures key in SyncUpdatePlan(db, key, name, cancelationDate, now, hint).plans
  {
  }

  lemma SyncUpdateTaskKeys(db: Db, key: Key, plan: Key, status: TaskStatus, timestamp: Time, now: Time,
                           hint: Option<Key>)
    requires key in db.tasks && plan in db.plans
    ensures key in SyncUpdateTask(db, key, plan, status, timestamp, now, hint).tasks
    ensures plan in SyncUpdateTask(db, key, plan, status, timestamp, now, hint).plans
  {
  }

  /* ---------- the consumer ---------- */

  /** The database, the number of events whose position was saved, and whether this process has applied the
      next one without saving yet. */
  datatype Consumer = Consumer(db: Db, saved: nat, unsaved: bool)

  datatype Action =
    | Deliver(now: Time, hint: Option<Key>)
    | Save
    | Crash      // also the end of the process after an exception

  ghost function Step(stream: seq<Event>, c: Consumer, a: Action): Consumer {
    match a
    case Deliver(now, hint) =>
      if c.unsaved || c.saved >= |stream| then c
      else
        var applied := Apply(c.db, Delivery(stream[c.saved], now, hint));
        if applied.Ok? then Consumer(applied.value, c.saved, true) else c
    case Save => if c.unsaved then Consumer(c.db, c.saved + 1, false) else c
    case Crash => c.(unsaved := false)
  }

  ghost function Steps(stream: seq<Event>, c: Consumer, log: seq<Action>): Consumer {
    if log == [] then c else Step(stream, Steps(stream, c, log[..|log| - 1]), log[|log| - 1])
  }

  /** `ds` is an uninterrupted pass over a prefix of the stream that leaves this database. */
  ghost predicate ExactlyOnce(stream: seq<Event>, start: Db, ds: seq<Delivery>, db: Db) {
    |ds| <= |stream| && Events(ds) == stream[..|ds|] && Run(start, ds) == Ok(db)
  }

  /** The next event of the stream creates an output asset. */
  predicate AtOutputAsset(stream: seq<Event>, c: Consumer) {
    c.saved < |stream| && stream[c.saved].CreateOutputAsset?
  }

  /** No crash falls between applying an output asset and saving its position. */
  ghost predicate SafeSchedule(stream: seq<Event>, start: Db, log: seq<Action>) {
    forall i :: 0 <= i < |log| && log[i].Crash? ==>
      var c := Steps(stream, Consumer(start, 0, false), log[..i]);
      !(c.unsaved && AtOutputAsset(stream, c))
  }

  lemma SafePrefix(stream: seq<Event>, start: Db, log: seq<Action>)
    requires log != [] && SafeSchedule(stream, start, log)
    ensures SafeSchedule(stream, start, log[..|log| - 1])
  {
    hide Steps;
    var init := log[..|log| - 1];
    forall i | 0 <= i < |init| && init[i].Crash?
      ensures var c := Steps(stream, Consumer(start, 0, false), init[..i]); !(c.unsaved && AtOutputAsset(stream, c))
    {
      assert init[..i] == log[..i];
    }
  }

  lemma EventsStep(ds: seq<Delivery>, d: Delivery)
    ensures Events(ds + [d]) == Events(ds) + [d.event]
  {
  }

  lemma RunStep(start: Db, ds: seq<Delivery>, d: Delivery)
    requires Run(start, ds).Ok?
    ensures Run(start, ds + [d]) == Apply(Run(start, ds).value, d)
  {
    assert (ds + [d])[..|ds|] == ds;
  }

  /** `ds` is the pass that a consumer with this position stands for. */
  ghost predicate PassOf(stream: seq<Event>, c: Consumer, ds: seq<Delivery>) {
    || (|ds| == c.saved && !c.unsaved)
    || (|ds| == c.saved + 1 && (c.unsaved || !AtOutputAsset(stream, c)))
  }

  ghost predicate Resumed(stream: seq<Event>, start: Db, c: Consumer) {
    c.saved <= |stream| && exists ds :: ExactlyOnce(stream, start, ds, c.db) && PassOf(stream, c, ds)
  }

  lemma StepResumed(stream: seq<Event>, start: Db, c: Consumer, a: Action)
    requires Resumed(stream, start, c) && !(a.Crash? && c.unsaved && AtOutputAsset(stream, c))
    ensures Resumed(stream, start, Step(stream, c, a))
  {
    hide Apply, ExactlyOnce;
    var ds :| ExactlyOnce(stream, start, ds, c.db) && PassOf(stream, c, ds);
    PassFits(stream, start, ds, c.db);
    var next := Step(stream, c, a);
    if a.Deliver? && !c.unsaved && c.saved < |stream| {
      var d := Delivery(stream[c.saved], a.now, a.hint);
      DeliverStep(stream, start, ds, c.db, c.saved, d);
      if |ds| == c.saved && Apply(c.db, d).Ok? {
        assert PassOf(stream, next, ds + [d]);
      } else {
        assert PassOf(stream, next, ds);
      }
    } else {
      assert PassOf(stream, next, ds);
    }
  }

  lemma PassFits(stream: seq<Event>, start: Db, ds: seq<Delivery>, db: Db)
    requires ExactlyOnce(stream, start, ds, db)
    ensures |ds| <= |stream|
  {
  }

  /** For every stream, and every schedule of crashes that is safe, the database is that of an uninterrupted
      pass over the events saved, and possibly the next one. A stream without output assets makes every
      schedule safe. */
  lemma {:induction false} CrashResume(stream: seq<Event>, start: Db, log: seq<Action>)
    requires SafeSchedule(stream, start, log)
    ensures var c := Steps(stream, Consumer(start, 0, false), log);
            c.saved <= |stream| && exists ds :: ExactlyOnce(stream, start, ds, c.db) && PassOf(stream, c, ds)
    decreases |log|
  {
    hide Step, AtOutputAsset;
    if log == [] {
      assert ExactlyOnce(stream, start, [], start);
    } else {
      SafePrefix(stream, start, log);
      CrashResume(stream, start, log[..|log| - 1]);
      StepResumed(stream, start, Steps(stream, Consumer(start, 0, false), log[..|log| - 1]), log[|log| - 1]);
    }
  }

  /** Delivering event `n` extends a pass over the first `n` events and repeats the end of one over `n + 1`. */
  lemma DeliverStep(stream: seq<Event>, start: Db, ds: seq<Delivery>, db: Db, n: nat, d: Delivery)
    requires n < |stream| && d.event == stream[n] && ExactlyOnce(stream, start, ds, db)
    requires |ds| == n || (|ds| == n + 1 && !d.event.CreateOutputAsset?)
    ensures |ds| == n && Apply(db, d).Ok? ==> ExactlyOnce(stream, start, ds + [d], Apply(db, d).value)
    ensures |ds| == n + 1 ==> Apply(db, d) == Ok(db)
  {
    hide Apply;
    if |ds| == n {
      if Apply(db, d).Ok? {
        RunStep(start, ds, d);
        EventsStep(ds, d);
      }
    } else {
      var last := ds[n];
      assert Events(ds)[n] == stream[n];
      ReplayExact(Run(start, ds[..n]).value, last, d);
    }
  }

  /** Once every position is saved, the resumed database is that of one uninterrupted pass. */
  lemma CrashResumeComplete(stream: seq<Event>, start: Db, log: seq<Action>)
    requires SafeSchedule(stream, start, log)
    requires Steps(stream, Consumer(start, 0, false), log).saved == |stream|
    ensures exists ds :: Events(ds) == stream && Run(start, ds) == Ok(Steps(stream, Consumer(start, 0, false), log).db)
  {
    CrashResume(stream, start, log);
    var c := Steps(stream, Consumer(start, 0, false), log);
    var ds :| ExactlyOnce(stream, start, ds, c.db) && PassOf(stream, c, ds);
    assert Events(ds) == stream;
  }

  /* ---------- a crash that is not safe ---------- */

  predicate CreatesAsset(e: Event, out: OutputId) {
    e.CreateOutputAsset? && e.output == out
  }

  /** How many assets a stream gives to an output. */
  function AssetsSent(es: seq<Event>, out: OutputId): nat {
    if es == [] then 0 else AssetsSent(es[..|es| - 1], out) + if CreatesAsset(es[|es| - 1], out) then 1 else 0
  }

  lemma RegisterKeepsAssets(db: Db, e: Event)
    requires e.CreateTask? && RegisterTask(db, e).Ok?
    ensures RegisterTask(db, e).value.links.outputAssets == db.links.outputAssets
  {
    hide ResolveAll, NewInputs, NewAssets;
  }

  lemma OtherEventKeepsAssets(db: Db, d: Delivery)
    requires Apply(db, d).Ok? && !d.event.CreateOutputAsset?
    ensures Apply(db, d).value.links.outputAssets == db.links.outputAssets
  {
    hide Refresh, RegisterTask, InsertOutputAsset, UpdatedFunction, FailTasks, UpdatedTask;
    if d.event.CreateTask? {
      RegisterKeepsAssets(db, d.event);
    }
  }

  lemma OutputAssetAdds(l: Links, e: Event, out: OutputId)
    requires e.CreateOutputAsset? && InsertOutputAsset(l, e.channel, e.output, e.asset).Ok?
    ensures |AssetsOf(InsertOutputAsset(l, e.channel, e.output, e.asset).value, out)|
         == |AssetsOf(l, out)| + if e.output == out then 1 else 0
  {
  }

  lemma ApplyAssets(db: Db, d: Delivery, out: OutputId)
    requires Apply(db, d).Ok?
    ensures |AssetsOf(Apply(db, d).value.links, out)|
         == |AssetsOf(db.links, out)| + if CreatesAsset(d.event, out) then 1 else 0
  {
    hide SyncUpdatePlan, SyncUpdateTask, SyncCreatePlan, RegisterTask, InsertOutputAsset, ReportFailure, RefreshPlan;
    if d.event.CreateOutputAsset? {
      OutputAssetAdds(db.links, d.event, out);
    } else {
      OtherEventKeepsAssets(db, d);
    }
  }

  lemma {:induction false} RunAssets(start: Db, ds: seq<Delivery>, out: OutputId)
    requires Run(start, ds).Ok?
    ensures |AssetsOf(Run(start, ds).value.links, out)| == |AssetsOf(start.links, out)| + AssetsSent(Events(ds), out)
    decreases |ds|
  {
    hide Apply, AssetsOf;
    if ds != [] {
      var n := |ds| - 1;
      assert Events(ds)[..n] == Events(ds[..n]);
      RunAssets(start, ds[..n], out);
      ApplyAssets(Run(start, ds[..n]).value, ds[n], out);
    }
  }

  lemma {:induction false} SentPrefix(es: seq<Event>, n: nat, out: OutputId)
    requires n <= |es|
    ensures AssetsSent(es[..n], out) <= AssetsSent(es, out)
    decreases |es|
  {
    if n == |es| {
      assert es[..n] == es;
    } else {
      assert es[..|es| - 1][..n] == es[..n];
      SentPrefix(es[..|es| - 1], n, out);
    }
  }

  /** The consumer `c` has applied output asset `out` and crashed: either nothing has happened since, or the
      database has more than `k` assets for it. */
  ghost predicate Beyond(c: Consumer, t: Consumer, out: OutputId, k: nat) {
    t == Consumer(c.db, c.saved, false) || |AssetsOf(t.db.links, out)| > k
  }

  lemma StepBeyond(stream: seq<Event>, c: Consumer, t: Consumer, a: Action, out: OutputId, k: nat)
    requires c.saved < |stream| && CreatesAsset(stream[c.saved], out)
    requires |AssetsOf(c.db.links, out)| >= k && Beyond(c, t, out, k)
    ensures Beyond(c, Step(stream, t, a), out, k)
  {
    hide Apply, AssetsOf;
    if a.Deliver? && !t.unsaved && t.saved < |stream| {
      var d := Delivery(stream[t.saved], a.now, a.hint);
      if Apply(t.db, d).Ok? {
        ApplyAssets(t.db, d, out);
      }
    }
  }

  lemma {:induction false} StepsBeyond(stream: seq<Event>, c: Consumer, t: Consumer, rest: seq<Action>, out: OutputId,
                                       k: nat)
    requires c.saved < |stream| && CreatesAsset(stream[c.saved], out)
    requires |AssetsOf(c.db.links, out)| >= k && Beyond(c, t, out, k)
    ensures Beyond(c, Steps(stream, t, rest), out, k)
    decreases |rest|
  {
    hide Step, Beyond;
    if rest != [] {
      StepsBeyond(stream, c, t, rest[..|rest| - 1], out, k);
      StepBeyond(stream, c, Steps(stream, t, rest[..|rest| - 1]), rest[|rest| - 1], out, k);
    }
  }

  lemma {:induction false} StepsConcat(stream: seq<Event>, c: Consumer, a: seq<Action>, b: seq<Action>)
    ensures Steps(stream, c, a + b) == Steps(stream, Steps(stream, c, a), b)
    decreases |b|
  {
    hide Step;
    if b == [] {
      assert a + b == a;
    } else {
      assert (a + b)[..|a + b| - 1] == a + b[..|b| - 1];
      StepsConcat(stream, c, a, b[..|b| - 1]);
    }
  }

  /** No pass over a prefix of the stream ends with this database. */
  ghost predicate NoPass(stream: seq<Event>, start: Db, db: Db) {
    forall ds :: |ds| <= |stream| && Events(ds) == stream[..|ds|] ==> Run(start, ds) != Ok(db)
  }

  lemma TooManyAssets(stream: seq<Event>, start: Db, db: Db, out: OutputId)
    requires |AssetsOf(db.links, out)| > |AssetsOf(start.links, out)| + AssetsSent(stream, out)
    ensures NoPass(stream, start, db)
  {
    hide Run, AssetsOf, AssetsSent;
    forall ds | |ds| <= |stream| && Events(ds) == stream[..|ds|] ensures Run(start, ds) != Ok(db) {
      if Run(start, ds) == Ok(db) {
        RunAssets(start, ds, out);
        SentPrefix(stream, |ds|, out);
        assert false;
      }
    }
  }

  /** Conversely, after a crash that is not safe, in a stream that gives each output one asset, the consumer never
      recovers: whatever happens next, it is still where it crashed, or its database is that of no uninterrupted
      pass. */
  lemma UnsafeCrashNeverRecovers(stream: seq<Event>, start: Db, log: seq<Action>, rest: seq<Action>)
    requires SafeSchedule(stream, start, log)
    requires var c := Steps(stream, Consumer(start, 0, false), log);
             c.unsaved && AtOutputAsset(stream, c) && AssetsSent(stream, stream[c.saved].output) == 1
    ensures var c := Steps(stream, Consumer(start, 0, false), log);
            var t := Steps(stream, Consumer(start, 0, false), log + [Crash] + rest);
            t == Consumer(c.db, c.saved, false) || NoPass(stream, start, t.db)
  {
    hide Apply, AssetsOf, AssetsSent, NoPass, Run;
    var c0 := Consumer(start, 0, false);
    var c := Steps(stream, c0, log);
    var out := stream[c.saved].output;
    CrashResume(stream, start, log);
    var ds :| ExactlyOnce(stream, start, ds, c.db) && PassOf(stream, c, ds);
    RunAssets(start, ds, out);
    LastSent(stream[..c.saved + 1], out);
    StepsAppend(stream, c0, log, Crash);
    StepsConcat(stream, c0, log + [Crash], rest);
    var k := |AssetsOf(start.links, out)| + 1;
    StepsBeyond(stream, c, Consumer(c.db, c.saved, false), rest, out, k);
    var t := Steps(stream, c0, log + [Crash] + rest);
    if t != Consumer(c.db, c.saved, false) {
      TooManyAssets(stream, start, t.db, out);
    }
  }

  lemma LastSent(es: seq<Event>, out: OutputId)
    requires es != [] && CreatesAsset(es[|es| - 1], out)
    ensures AssetsSent(es, out) >= 1
  {
  }

  /** The class keeps what the process keeps: the database and the saved position. */
  class ChannelConsumer {
    const database: Database
    var lastEvent: nat

    constructor (database: Database)
      ensures this.database == database && lastEvent == 0
    {
      this.database := database;
      lastEvent := 0;
    }

    ghost function Position(): Consumer
      reads this, database
    {
      Consumer(database.State(), lastEvent, false)
    }

    /** consume_channel, in a process that may die after `life` transactions or saved positions. */
    method ConsumeChannel(stream: seq<Event>, life: nat) returns (raised: Option<Error>, ghost log: seq<Action>)
      requires lastEvent <= |stream|
      modifies this, database
      ensures Position() == Steps(stream, old(Position()), log + [Crash])
      ensures raised.None? ==>
                lastEvent == if life >= 2 * (|stream| - old(lastEvent)) then |stream| else old(lastEvent) + life / 2
      ensures raised.Some? ==>
                && lastEvent < |stream|
                && exists now, hint :: Apply(database.State(), Delivery(stream[lastEvent], now, hint))
                                       == Err(raised.value)
    {
      hide Apply, Steps;
      log, raised := [], None;
      EmptyLog(stream, Position());
      var steps := 0;
      ghost var start := Position();
      while lastEvent < |stream|
        invariant lastEvent <= |stream| && raised.None?
        invariant steps == 2 * (lastEvent - old(lastEvent)) && steps <= life
        invariant Position() == Steps(stream, start, log)
      {
        if steps == life {
          break;
        }
        var now: Time := *;
        ghost var hint;
        raised, hint := database.SyncOnEventMessage(stream[lastEvent], now);
        StepsAppend(stream, start, log, Deliver(now, hint));
        log := log + [Deliver(now, hint)];
        if raised.Some? {
          break;
        }
        steps := steps + 1;
        if steps == life {
          break;
        }
        lastEvent := lastEvent + 1;
        StepsAppend(stream, start, log, Save);
        log := log + [Save];
        steps := steps + 1;
      }
      StepsAppend(stream, start, log, Crash);
    }
  }

  lemma EmptyLog(stream: seq<Event>, c: Consumer)
    ensures Steps(stream, c, []) == c
  {
  }

  lemma StepsAppend(stream: seq<Event>, c: Consumer, log: seq<Action>, a: Action)
    ensures Steps(stream, c, log + [a]) == Step(stream, Steps(stream, c, log), a)
  {
    assert (log + [a])[..|log|] == log;
  }

  /* ---------- the counterexample ---------- */

  const PRODUCER := OutputId("producer", "model")
  const OUTPUT_ASSET := CreateOutputAsset("channel", PRODUCER, AssetRef(Model, "asset"))

  /** One output without asset, and the inputs that name it. */
  function BeforeOutputAsset(inputs: map<InputId, InputRow>): Db {
    Db(map[], map[], map[], map[], map[], Links(inputs, map[PRODUCER := "channel"], map[], map[]))
  }

  /** A crash after an output asset was applied: without a consumer, the replay inserts the row again and
      the database is that of no uninterrupted pass; with one, the replay raises each time and the saved
      position never moves again. */
  lemma OutputAssetReplayFails(hint: Option<Key>, retries: seq<Action>)
    ensures var stream := [OUTPUT_ASSET];
            var log := [Deliver(0, hint), Crash, Deliver(0, hint), Save];
            var c := Steps(stream, Consumer(BeforeOutputAsset(map[]), 0, false), log);
            c.saved == 1 && forall ds :: Events(ds) == stream ==> Run(BeforeOutputAsset(map[]), ds) != Ok(c.db)
    ensures var input := InputRow("in", FromParent("producer", "model"));
            var start := BeforeOutputAsset(map[InputId("child", 0) := input]);
            Steps([OUTPUT_ASSET], Consumer(start, 0, false), [Deliver(0, hint), Crash] + retries).saved == 0
  {
    NoConsumerReplay(hint);
    StuckConsumer(hint, retries);
  }

  /** One event, a crash before its checkpoint is saved, and a redelivery. */
  lemma CrashOnce(stream: seq<Event>, start: Db, d: Delivery, once: Db, twice: Db)
    requires stream == [d.event] && Apply(start, d) == Ok(once) && Apply(once, d) == Ok(twice)
    ensures var deliver := Deliver(d.now, d.hint);
            Steps(stream, Consumer(start, 0, false), [deliver, Crash, deliver, Save]) == Consumer(twice, 1, false)
  {
    hide Apply;
    var deliver, c0 := Deliver(d.now, d.hint), Consumer(start, 0, false);
    StepsAppend(stream, c0, [], deliver);
    StepsAppend(stream, c0, [deliver], Crash);
    StepsAppend(stream, c0, [deliver, Crash], deliver);
    StepsAppend(stream, c0, [deliver, Crash, deliver], Save);
    assert [] + [deliver] == [deliver];
    assert [deliver] + [Crash] == [deliver, Crash];
    assert [deliver, Crash] + [deliver] == [deliver, Crash, deliver];
    assert [deliver, Crash, deliver] + [Save] == [deliver, Crash, deliver, Save];
  }

  lemma NoConsumerReplay(hint: Option<Key>)
    ensures var stream := [OUTPUT_ASSET];
            var log := [Deliver(0, hint), Crash, Deliver(0, hint), Save];
            var c := Steps(stream, Consumer(BeforeOutputAsset(map[]), 0, false), log);
            c.saved == 1 && forall ds :: Events(ds) == stream ==> Run(BeforeOutputAsset(map[]), ds) != Ok(c.db)
  {
    var stream, start := [OUTPUT_ASSET], BeforeOutputAsset(map[]);
    var d := Delivery(OUTPUT_ASSET, 0, hint);
    var c0 := Consumer(start, 0, false);
    assert InputsFrom(start.links, PRODUCER) == {};
    assert Apply(start, d).Ok?;
    ReplayOutputAsset(start, d, d);
    var once := Apply(start, d).value;
    var twice := Apply(once, d).value;
    CrashOnce(stream, start, d, once, twice);
    forall ds | Events(ds) == stream ensures Run(start, ds) != Ok(twice) {
      assert Events(ds)[0] == OUTPUT_ASSET;
      assert ds[..0] == [] && Run(start, ds) == Apply(start, ds[0]);
    }
  }

  lemma {:induction false} StuckConsumer(hint: Option<Key>, retries: seq<Action>)
    ensures var input := InputRow("in", FromParent("producer", "model"));
            var start := BeforeOutputAsset(map[InputId("child", 0) := input]);
            var c := Steps([OUTPUT_ASSET], Consumer(start, 0, false), [Deliver(0, hint), Crash] + retries);
            c == Consumer(Apply(start, Delivery(OUTPUT_ASSET, 0, hint)).value, 0, false)
    decreases |retries|
  {
    var input := InputRow("in", FromParent("producer", "model"));
    var start := BeforeOutputAsset(map[InputId("child", 0) := input]);
    var stream, c0, d := [OUTPUT_ASSET], Consumer(start, 0, false), Delivery(OUTPUT_ASSET, 0, hint);
    var first: seq<Action> := [Deliver(0, hint), Crash];
    assert InputId("child", 0) in InputsFrom(start.links, PRODUCER);
    assert Apply(start, d).Ok?;
    var once := Apply(start, d).value;
    if retries == [] {
      StepsAppend(stream, c0, [], Deliver(0, hint));
      StepsAppend(stream, c0, [Deliver(0, hint)], Crash);
      assert [] + [Deliver(0, hint)] == [Deliver(0, hint)];
      assert [Deliver(0, hint)] + [Crash] == first;
      assert first + retries == first;
    } else {
      var n := |retries| - 1;
      StuckConsumer(hint, retries[..n]);
      assert first + retries == (first + retries[..n]) + [retries[n]];
      StepsAppend(stream, c0, first + retries[..n], retries[n]);
      if retries[n].Deliver? {
        ReplayOutputAsset(start, d, Delivery(OUTPUT_ASSET, retries[n].now, retries[n].hint));
      }
    }
  }
}
