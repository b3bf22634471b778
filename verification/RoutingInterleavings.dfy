/** The same operations interleaved query by query: a process reads the mapping of a plan, counts the plans per
    worker, inserts a row; another reads a row, then saves it with a release date. */
module RoutingInterleavings {
  import opened Common
  import opened TaskRouting

  type Process = nat

  /** Where a process is: `Unmapped` has found no mapping, `Chosen` has counted, `Releasing` holds the row it
      read. */
  datatype Pc =
    | Idle
    | Unmapped(plan: Key)
    | Chosen(plan: Key, worker: int)
    | Releasing(row: nat, mapping: Mapping)

  datatype State = State(rows: seq<Mapping>, pcs: map<Process, Pc>)

  datatype Action =
    | ReadMapping(plan: Key)
    | Count(numWorkers: nat)
    | Insert
    | ReadForRelease(plan: Key)
    | SaveRelease(now: int)

  datatype Step = Step(process: Process, action: Action)

  function PcOf(s: State, p: Process): Pc {
    if p in s.pcs then s.pcs[p] else Idle
  }

  function Goto(s: State, p: Process, pc: Pc): State {
    s.(pcs := s.pcs[p := pc])
  }

  /** An insertion that breaks the unique constraint raises and leaves the table as it was. A step that does
      not fit where the process is does nothing. */
  ghost function Next(s: State, step: Step): State {
    var p := step.process;
    match (step.action, PcOf(s, p))
    case (ReadMapping(plan), Idle) =>
      if FindRow(s.rows, plan).Some? then s else Goto(s, p, Unmapped(plan))
    case (Count(numWorkers), Unmapped(plan)) =>
      if Candidates(s.rows, numWorkers) == {} then Goto(s, p, Idle)
      else Goto(s, p, Chosen(plan, Choice(s.rows, numWorkers)))
    case (Insert, Chosen(plan, worker)) =>
      if FindRow(s.rows, plan).Some? then Goto(s, p, Idle)
      else Goto(s.(rows := s.rows + [Mapping(plan, worker, None)]), p, Idle)
    case (ReadForRelease(plan), Idle) =>
      var i := FindRow(s.rows, plan);
      if i.None? then s else Goto(s, p, Releasing(i.value, s.rows[i.value]))
    case (SaveRelease(now), Releasing(row, mapping)) =>
      if row < |s.rows| then Goto(s.(rows := s.rows[row := mapping.(releaseDate := Some(now))]), p, Idle) else s
    case _ => s
  }

  ghost function Execute(s: State, steps: seq<Step>): State {
    if steps == [] then s else Next(Execute(s, steps[..|steps| - 1]), steps[|steps| - 1])
  }

  lemma {:induction false} ExecuteConcat(s: State, a: seq<Step>, b: seq<Step>)
    ensures Execute(s, a + b) == Execute(Execute(s, a), b)
    decreases |b|
  {
    if b == [] {
      assert a + b == a;
    } else {
      assert (a + b)[..|a + b| - 1] == a + b[..|b| - 1];
      ExecuteConcat(s, a, b[..|b| - 1]);
    }
  }

  /** At most one unreleased row per plan; a releasing process holds the plan and worker of its row. */
  ghost predicate Sound(s: State) {
    && Unique(s.rows)
    && forall p :: PcOf(s, p).Releasing? ==> Held(s.rows, PcOf(s, p).row, PcOf(s, p).mapping)
  }

  predicate Held(rows: seq<Mapping>, row: nat, m: Mapping) {
    row < |rows| && rows[row].plan == m.plan && rows[row].worker == m.worker
  }

  /** Rows are never removed, keep plan and worker, and stay released once released. */
  predicate Grows(before: seq<Mapping>, after: seq<Mapping>) {
    && |before| <= |after|
    && forall i :: 0 <= i < |before| ==>
         && after[i].plan == before[i].plan && after[i].worker == before[i].worker
         && (Active(after[i]) ==> Active(before[i]))
  }

  lemma NextKeeps(s: State, step: Step)
    requires Sound(s)
    ensures Sound(Next(s, step)) && Grows(s.rows, Next(s, step).rows)
  {
    var t := Next(s, step);
    forall p | PcOf(t, p).Releasing? ensures Held(t.rows, PcOf(t, p).row, PcOf(t, p).mapping) {
      if p != step.process {
        assert PcOf(t, p) == PcOf(s, p);
      }
    }
  }

  lemma {:induction false} ExecuteKeeps(s: State, steps: seq<Step>)
    requires Sound(s)
    ensures Sound(Execute(s, steps)) && Grows(s.rows, Execute(s, steps).rows)
    decreases |steps|
  {
    if steps != [] {
      var before := Execute(s, steps[..|steps| - 1]);
      ExecuteKeeps(s, steps[..|steps| - 1]);
      NextKeeps(before, steps[|steps| - 1]);
    }
  }

  /** Whatever the interleaving, a plan has at most one unreleased mapping. */
  lemma AlwaysUnique(steps: seq<Step>)
    ensures Unique(Execute(State([], map[]), steps).rows)
  {
    ExecuteKeeps(State([], map[]), steps);
  }

  /** From the moment a row exists until it is released, every lookup of its plan, by whatever process and at
      whatever point of the interleaving, finds that row and so the same worker. */
  lemma Sticky(start: State, steps: seq<Step>, from: nat, at: nat, to: nat, row: nat)
    requires Sound(start) && from <= at <= to <= |steps|
    requires row < |Execute(start, steps[..from]).rows|
    requires row < |Execute(start, steps[..to]).rows| && Active(Execute(start, steps[..to]).rows[row])
    ensures var first, now := Execute(start, steps[..from]).rows, Execute(start, steps[..at]).rows;
            && FindRow(now, first[row].plan) == Some(row)
            && now[row].worker == first[row].worker && now[row].plan == first[row].plan
  {
    hide Next;
    var s, t, u := Execute(start, steps[..from]), Execute(start, steps[..at]), Execute(start, steps[..to]);
    ExecuteKeeps(start, steps[..from]);
    assert steps[..at] == steps[..from] + steps[from..at] && steps[..to] == steps[..at] + steps[at..to];
    ExecuteConcat(start, steps[..from], steps[from..at]);
    ExecuteConcat(start, steps[..at], steps[at..to]);
    ExecuteKeeps(s, steps[from..at]);
    ExecuteKeeps(t, steps[at..to]);
    FindRowOf(t.rows, row);
  }

  /** A step changes a released row exactly when it saves a release that was read before that one was saved,
      with another date; only the date changes. */
  lemma HistoryStepExact(s: State, step: Step, i: nat)
    requires Sound(s) && i < |s.rows| && !Active(s.rows[i])
    ensures var t, pc := Next(s, step), PcOf(s, step.process);
            && (t.rows[i] != s.rows[i] <==> step.action.SaveRelease? && pc.Releasing? && pc.row == i
                                            && s.rows[i].releaseDate != Some(step.action.now))
            && t.rows[i] == s.rows[i].(releaseDate := t.rows[i].releaseDate)
  {
  }

  /** No process starts a release while another one is between its read and its save. */
  ghost predicate OneReleaseAtATime(start: State, steps: seq<Step>) {
    forall i :: 0 <= i < |steps| && steps[i].action.ReadForRelease? ==>
      forall p :: !PcOf(Execute(start, steps[..i]), p).Releasing?
  }

  ghost predicate OneReleaser(s: State) {
    && (forall p :: PcOf(s, p).Releasing? ==> PcOf(s, p).row < |s.rows| && Active(s.rows[PcOf(s, p).row]))
    && (forall p, q :: PcOf(s, p).Releasing? && PcOf(s, q).Releasing? ==> p == q)
  }

  lemma NextOneReleaser(s: State, step: Step)
    requires Sound(s) && OneReleaser(s)
    requires step.action.ReadForRelease? ==> forall p :: !PcOf(s, p).Releasing?
    ensures OneReleaser(Next(s, step))
  {
    var t := Next(s, step);
    forall p | PcOf(t, p).Releasing? ensures PcOf(t, p).row < |t.rows| && Active(t.rows[PcOf(t, p).row]) {
      if p != step.process {
        assert PcOf(t, p) == PcOf(s, p);
        assert PcOf(s, step.process).Releasing? ==> step.process == p;
      }
    }
    forall p, q | PcOf(t, p).Releasing? && PcOf(t, q).Releasing? ensures p == q {
      assert p != step.process ==> PcOf(t, p) == PcOf(s, p);
      assert q != step.process ==> PcOf(t, q) == PcOf(s, q);
    }
  }

  /** With releases one at a time, released rows never change again. */
  lemma {:induction false} HistoryKept(start: State, steps: seq<Step>, i: nat)
    requires Sound(start) && OneReleaser(start) && OneReleaseAtATime(start, steps)
    requires i < |start.rows| && !Active(start.rows[i])
    ensures OneReleaser(Execute(start, steps))
    ensures i < |Execute(start, steps).rows| && Execute(start, steps).rows[i] == start.rows[i]
    decreases |steps|
  {
    if steps != [] {
      var n := |steps| - 1;
      assert OneReleaseAtATime(start, steps[..n]) by {
        forall k | 0 <= k < n && steps[..n][k].action.ReadForRelease?
          ensures forall p :: !PcOf(Execute(start, steps[..n][..k]), p).Releasing?
        {
          assert steps[..n][..k] == steps[..k];
        }
      }
      HistoryKept(start, steps[..n], i);
      var s := Execute(start, steps[..n]);
      ExecuteKeeps(start, steps[..n]);
      NextOneReleaser(s, steps[n]);
      HistoryStepExact(s, steps[n], i);
    }
  }

  /** Two releases of one plan that overlap: the second one rewrites the date of the first. */
  lemma OverlappingReleasesRewrite(plan: Key, first: int, second: int)
    requires first != second
    ensures var start := State([Mapping(plan, 0, None)], map[]);
            var steps := [Step(0, ReadForRelease(plan)), Step(1, ReadForRelease(plan)), Step(0, SaveRelease(first)),
                          Step(1, SaveRelease(second))];
            && Execute(start, steps[..3]).rows == [Mapping(plan, 0, Some(first))]
            && Execute(start, steps).rows == [Mapping(plan, 0, Some(second))]
  {
    var start := State([Mapping(plan, 0, None)], map[]);
    var steps := [Step(0, ReadForRelease(plan)), Step(1, ReadForRelease(plan)), Step(0, SaveRelease(first)),
                  Step(1, SaveRelease(second))];
    FindRowOf(start.rows, 0);
    assert steps[..4] == steps && steps[..3][..2] == steps[..2] && steps[..2][..1] == steps[..1]
        && steps[..1][..0] == [];
    var held := Releasing(0, Mapping(plan, 0, None));
    assert Execute(start, steps[..1]) == State(start.rows, map[0 := held]);
    assert Execute(start, steps[..2]) == State(start.rows, map[0 := held, 1 := held]);
    assert Execute(start, steps[..3]) == State([Mapping(plan, 0, Some(first))], map[0 := Idle, 1 := held]);
  }

  /* ---------- the load bound between processes ---------- */

  ghost predicate AllIdle(s: State) {
    forall p :: PcOf(s, p).Idle?
  }

  /** Every process reads the same number of workers. */
  predicate CountWith(steps: seq<Step>, numWorkers: nat) {
    forall i :: 0 <= i < |steps| && steps[i].action.Count? ==> steps[i].action.numWorkers == numWorkers
  }

  /** A process is between its count and its insertion from before step `from` to before step `to`. */
  ghost predicate ChosenThroughout(start: State, steps: seq<Step>, p: Process, from: nat, to: nat)
    requires to <= |steps|
  {
    forall k :: from <= k <= to ==> PcOf(Execute(start, steps[..k]), p).Chosen?
  }

  /** Every insertion finds the table as the count of its process did. */
  ghost predicate UndisturbedInsertions(start: State, steps: seq<Step>) {
    forall i, j :: 0 <= j < i < |steps| && Completes(start, steps, j, i) ==>
      Execute(start, steps[..i]).rows == Execute(start, steps[..j]).rows
  }

  /** Step `i` inserts what a process chose with its count at step `j`. */
  ghost predicate Completes(start: State, steps: seq<Step>, j: nat, i: nat)
    requires j < i < |steps|
  {
    && steps[i].action.Insert? && steps[j].action.Count? && steps[j].process == steps[i].process
    && ChosenThroughout(start, steps, steps[i].process, j + 1, i)
  }

  /** Only its own count brings a process to where it is about to insert. */
  lemma BecomesChosen(s: State, step: Step, p: Process)
    requires PcOf(Next(s, step), p).Chosen? && PcOf(Next(s, step), p) != PcOf(s, p)
    ensures step.process == p && step.action.Count? && !PcOf(s, p).Chosen?
    ensures var n := step.action.numWorkers;
            Candidates(s.rows, n) != {} && PcOf(Next(s, step), p).worker == Choice(s.rows, n)
  {
    hide FindRow, Candidates, Choice;
  }

  /** A process about to insert has chosen by a count of its own, some steps before. */
  lemma {:induction false} CountBefore(start: State, steps: seq<Step>, p: Process, numWorkers: nat) returns (j: nat)
    requires AllIdle(start) && CountWith(steps, numWorkers) && PcOf(Execute(start, steps), p).Chosen?
    ensures j < |steps| && steps[j] == Step(p, Count(numWorkers)) && ChosenThroughout(start, steps, p, j + 1, |steps|)
    ensures var rows := Execute(start, steps[..j]).rows;
            Candidates(rows, numWorkers) != {} && PcOf(Execute(start, steps), p).worker == Choice(rows, numWorkers)
    decreases |steps|
  {
    hide Candidates, Choice, Next, PcOf;
    assert steps != [];
    var n := |steps| - 1;
    var init, before := steps[..n], Execute(start, steps[..n]);
    assert steps[..|steps|] == steps;
    if PcOf(before, p) == PcOf(Execute(start, steps), p) {
      j := CountBefore(start, init, p, numWorkers);
      assert init[..j] == steps[..j];
      forall k | j + 1 <= k <= |steps| ensures PcOf(Execute(start, steps[..k]), p).Chosen? {
        assert k <= n ==> init[..k] == steps[..k];
      }
    } else {
      j := n;
      BecomesChosen(before, steps[n], p);
    }
  }

  lemma UndisturbedPrefix(start: State, steps: seq<Step>)
    requires steps != [] && UndisturbedInsertions(start, steps)
    ensures UndisturbedInsertions(start, steps[..|steps| - 1])
  {
    hide Next, Execute;
    var init := steps[..|steps| - 1];
    forall i, j | 0 <= j < i < |init| && Completes(start, init, j, i)
      ensures Execute(start, init[..i]).rows == Execute(start, init[..j]).rows
    {
      assert init[..i] == steps[..i] && init[..j] == steps[..j];
      forall k | j + 1 <= k <= i ensures PcOf(Execute(start, steps[..k]), steps[i].process).Chosen? {
        assert init[..k] == steps[..k];
      }
      assert Completes(start, steps, j, i);
    }
  }

  /** Never more than `peak` plans run. */
  ghost predicate AtMost(start: State, steps: seq<Step>, peak: nat) {
    forall i :: 0 <= i <= |steps| ==> Running(Execute(start, steps[..i]).rows) <= peak
  }

  lemma AtMostPrefix(start: State, steps: seq<Step>, peak: nat)
    requires steps != [] && AtMost(start, steps, peak)
    ensures AtMost(start, steps[..|steps| - 1], peak) && Running(Execute(start, steps).rows) <= peak
  {
    hide Next, Execute, Running;
    var init := steps[..|steps| - 1];
    assert steps[..|steps|] == steps;
    forall i | 0 <= i <= |init| ensures Running(Execute(start, init[..i]).rows) <= peak {
      assert init[..i] == steps[..i];
    }
  }

  /** What a step does to the table. */
  datatype Change = Same | Inserted(plan: Key, worker: int) | Saved(row: nat, mapping: Mapping)

  function ChangeOf(s: State, step: Step): Change {
    match (step.action, PcOf(s, step.process))
    case (Insert, Chosen(plan, worker)) => if FindRow(s.rows, plan).Some? then Same else Inserted(plan, worker)
    case (SaveRelease(now), Releasing(row, mapping)) =>
      if row < |s.rows| then Saved(row, mapping.(releaseDate := Some(now))) else Same
    case _ => Same
  }

  lemma NextRows(s: State, step: Step)
    ensures match ChangeOf(s, step)
            case Same => Next(s, step).rows == s.rows
            case Inserted(plan, worker) =>
              step.action.Insert? && PcOf(s, step.process) == Chosen(plan, worker)
              && Next(s, step).rows == s.rows + [Mapping(plan, worker, None)]
            case Saved(row, m) => row < |s.rows| && !Active(m) && Next(s, step).rows == s.rows[row := m]
  {
    hide FindRow, Choice, Candidates;
  }

  lemma {:induction false} SharedThroughout(start: State, steps: seq<Step>, numWorkers: nat, peak: nat)
    requires numWorkers > 0 && AllIdle(start) && InRange(start.rows, numWorkers) && Shared(start.rows, numWorkers, peak)
    requires CountWith(steps, numWorkers) && UndisturbedInsertions(start, steps) && AtMost(start, steps, peak)
    ensures InRange(Execute(start, steps).rows, numWorkers) && Shared(Execute(start, steps).rows, numWorkers, peak)
    decreases |steps|
  {
    hide Next, InRange, Shared, Running, Choice, Candidates, UndisturbedInsertions, AtMost;
    if steps != [] {
      var n := |steps| - 1;
      var init, last := steps[..n], steps[n];
      UndisturbedPrefix(start, steps);
      AtMostPrefix(start, steps, peak);
      SharedThroughout(start, init, numWorkers, peak);
      var s := Execute(start, init);
      NextRows(s, last);
      match ChangeOf(s, last) {
        case Same =>
        case Inserted(plan, worker) =>
          InsertedLeast(start, steps, numWorkers);
          InsertShared(s.rows, plan, numWorkers, peak);
        case Saved(row, m) =>
          SaveShared(s.rows, row, m, numWorkers, peak);
      }
    }
  }

  /** An undisturbed insertion puts the plan on a worker that is least loaded when it is inserted. */
  lemma InsertedLeast(start: State, steps: seq<Step>, numWorkers: nat)
    requires AllIdle(start) && steps != [] && CountWith(steps, numWorkers) && UndisturbedInsertions(start, steps)
    requires var n := |steps| - 1;
             steps[n].action.Insert? && PcOf(Execute(start, steps[..n]), steps[n].process).Chosen?
    ensures var n := |steps| - 1;
            var s := Execute(start, steps[..n]);
            Candidates(s.rows, numWorkers) != {} && PcOf(s, steps[n].process).worker == Choice(s.rows, numWorkers)
  {
    hide Next, Execute, Choice, Candidates;
    var n := |steps| - 1;
    var init, p := steps[..n], steps[n].process;
    var j := CountBefore(start, init, p, numWorkers);
    assert init[..j] == steps[..j];
    forall k | j + 1 <= k <= n ensures PcOf(Execute(start, steps[..k]), p).Chosen? {
      assert init[..k] == steps[..k];
    }
    assert Completes(start, steps, j, n);
  }

  /** In every interleaving, from a table with no plan running and with a fixed number of workers: if the table
      is, at each insertion, as its process counted it, no worker ever has more plans than the peak divided by
      the number of workers, rounded up. */
  lemma InterleavedLoadBound(start: State, steps: seq<Step>, numWorkers: nat, peak: nat, worker: int)
    requires numWorkers > 0 && AllIdle(start) && Running(start.rows) == 0
    requires CountWith(steps, numWorkers) && UndisturbedInsertions(start, steps) && AtMost(start, steps, peak)
    ensures Load(Execute(start, steps).rows, worker) <= CeilDiv(peak, numWorkers)
  {
    hide Next, Execute, Shared, InRange, Load, CeilDiv, CountWith, UndisturbedInsertions, AtMost, AllIdle;
    NoneRunningShared(start.rows, numWorkers);
    SharedGrows(start.rows, numWorkers, 0, peak);
    SharedThroughout(start, steps, numWorkers, peak);
    SharedBound(Execute(start, steps).rows, numWorkers, peak, worker);
  }

  lemma {:induction false} RunningAtMostRows(rows: seq<Mapping>)
    ensures Running(rows) <= |rows|
    decreases |rows|
  {
    if rows != [] {
      RunningAtMostRows(rows[..|rows| - 1]);
    }
  }

  /** Never more plans run than there are rows in the end. */
  lemma AtMostRows(start: State, steps: seq<Step>)
    requires Sound(start)
    ensures AtMost(start, steps, |Execute(start, steps).rows|)
  {
    hide Next, Sound;
    forall i | 0 <= i <= |steps| ensures Running(Execute(start, steps[..i]).rows) <= |Execute(start, steps).rows| {
      ExecuteKeeps(start, steps[..i]);
      assert steps[..i] + steps[i..] == steps;
      ExecuteConcat(start, steps[..i], steps[i..]);
      ExecuteKeeps(Execute(start, steps[..i]), steps[i..]);
      RunningAtMostRows(Execute(start, steps[..i]).rows);
    }
  }

  /** Two processes that count before either inserts choose the same worker, however many there are: two plans
      run at most, and one worker has both. */
  lemma InterleavedCountsCollide(a: Key, b: Key, numWorkers: nat)
    requires a != b && numWorkers > 0
    ensures var start := State([], map[]);
            var steps := [Step(0, ReadMapping(a)), Step(1, ReadMapping(b)), Step(0, Count(numWorkers)),
                          Step(1, Count(numWorkers)), Step(0, Insert), Step(1, Insert)];
            AtMost(start, steps, 2) && Load(Execute(start, steps).rows, 0) == 2
  {
    hide Next, Load, AtMost;
    var start := State([], map[]);
    SixSteps(start, Step(0, ReadMapping(a)), Step(1, ReadMapping(b)), Step(0, Count(numWorkers)),
             Step(1, Count(numWorkers)), Step(0, Insert), Step(1, Insert));
    BothChoose(a, b, numWorkers);
    BothInsert(a, b);
    AtMostRows(start, [Step(0, ReadMapping(a)), Step(1, ReadMapping(b)), Step(0, Count(numWorkers)),
                       Step(1, Count(numWorkers)), Step(0, Insert), Step(1, Insert)]);
  }

  lemma BothChoose(a: Key, b: Key, numWorkers: nat)
    requires numWorkers > 0
    ensures var s := Next(Next(State([], map[]), Step(0, ReadMapping(a))), Step(1, ReadMapping(b)));
            Next(Next(s, Step(0, Count(numWorkers))), Step(1, Count(numWorkers)))
            == State([], map[0 := Chosen(a, 0), 1 := Chosen(b, 0)])
  {
    assert 0 in Workers(numWorkers) && Least([], numWorkers, 0);
    LeastUnique([], numWorkers, 0, Choice([], numWorkers));
    hide Candidates, Least, Choice;
    var s := Next(Next(State([], map[]), Step(0, ReadMapping(a))), Step(1, ReadMapping(b)));
    assert s == State([], map[0 := Unmapped(a), 1 := Unmapped(b)]);
  }

  lemma BothInsert(a: Key, b: Key)
    requires a != b
    ensures var s := State([], map[0 := Chosen(a, 0), 1 := Chosen(b, 0)]);
            var rows := Next(Next(s, Step(0, Insert)), Step(1, Insert)).rows;
            |rows| == 2 && Load(rows, 0) == 2
  {
    var s := State([], map[0 := Chosen(a, 0), 1 := Chosen(b, 0)]);
    var one, two := [Mapping(a, 0, None)], [Mapping(a, 0, None), Mapping(b, 0, None)];
    var first := Next(s, Step(0, Insert));
    assert first == State([] + one, map[0 := Idle, 1 := Chosen(b, 0)]);
    assert [] + one == one && one[..0] == [];
    assert FindRow(one, b) == None;
    assert Next(first, Step(1, Insert)).rows == one + [Mapping(b, 0, None)] == two;
    assert two[..1] == one && Load([], 0) == 0;
    assert Load(one, 0) == 1;
  }

  /* ---------- a release between a count and its insertion ---------- */

  function TwoBusy(a: Key, b: Key): seq<Mapping> {
    [Mapping(a, 0, None), Mapping(b, 1, None)]
  }

  function ReleaseInBetween(b: Key, c: Key, now: int): seq<Step> {
    [Step(0, ReadMapping(c)), Step(0, Count(2)), Step(1, ReadForRelease(b)), Step(1, SaveRelease(now)), Step(0, Insert)]
  }

  lemma SingleRow(m: Mapping, w: int)
    requires Active(m)
    ensures Running([m]) == 1 && Load([m], w) == if m.worker == w then 1 else 0
  {
    assert [m][..0] == [];
  }

  lemma TwoBusyLoads(a: Key, b: Key)
    ensures Load(TwoBusy(a, b), 0) == 1 && Load(TwoBusy(a, b), 1) == 1 && Running(TwoBusy(a, b)) == 2
    ensures Candidates(TwoBusy(a, b), 2) == {0, 1} && Least(TwoBusy(a, b), 2, 0)
  {
    var rows := TwoBusy(a, b);
    assert rows[..1] == [rows[0]];
    SingleRow(rows[0], 0);
    SingleRow(rows[0], 1);
    assert forall w :: w in Workers(2) <==> w in {0, 1};
    assert Candidates(rows, 2) == {0, 1};
  }

  lemma CountedBeforeRelease(a: Key, b: Key, c: Key, now: int)
    requires a != b && c != a && c != b
    ensures var rows := TwoBusy(a, b);
            var s := Next(Next(State(rows, map[]), Step(0, ReadMapping(c))), Step(0, Count(2)));
            && s == State(rows, map[0 := Chosen(c, 0)])
            && Next(Next(s, Step(1, ReadForRelease(b))), Step(1, SaveRelease(now)))
               == State([Mapping(a, 0, None), Mapping(b, 1, Some(now))], map[0 := Chosen(c, 0), 1 := Idle])
  {
    hide Candidates, Least, Choice, Load;
    var rows := TwoBusy(a, b);
    TwoBusyLoads(a, b);
    LeastUnique(rows, 2, 0, Choice(rows, 2));
    FindRowOf(rows, 1);
    assert FindRow(rows, c).None?;
    var read := Next(State(rows, map[]), Step(0, ReadMapping(c)));
    assert read == State(rows, map[0 := Unmapped(c)]);
    var s := Next(read, Step(0, Count(2)));
    assert s == State(rows, map[0 := Chosen(c, 0)]);
    var released := Next(s, Step(1, ReadForRelease(b)));
    assert released == State(rows, map[0 := Chosen(c, 0), 1 := Releasing(1, Mapping(b, 1, None))]);
    assert rows[1 := Mapping(b, 1, Some(now))] == [Mapping(a, 0, None), Mapping(b, 1, Some(now))];
  }

  lemma InsertedAfterRelease(a: Key, b: Key, c: Key, now: int)
    requires a != b && c != a && c != b
    ensures var s := State([Mapping(a, 0, None), Mapping(b, 1, Some(now))], map[0 := Chosen(c, 0), 1 := Idle]);
            var rows := Next(s, Step(0, Insert)).rows;
            Running(s.rows) == 1 && Running(rows) == 2 && Load(rows, 0) == 2
  {
    var rows := [Mapping(a, 0, None), Mapping(b, 1, Some(now)), Mapping(c, 0, None)];
    assert rows[..2] == [rows[0], rows[1]] && [rows[0], rows[1]][..1] == [rows[0]];
    SingleRow(rows[0], 0);
    assert Running([rows[0], rows[1]]) == 1 && Load([rows[0], rows[1]], 0) == 1;
    assert FindRow([rows[0], rows[1]], c).None?;
    var s := State([rows[0], rows[1]], map[0 := Chosen(c, 0), 1 := Idle]);
    assert Next(s, Step(0, Insert)).rows == [rows[0], rows[1]] + [rows[2]] == rows;
  }

  /** One release between the count of an acquire and its insertion is enough: with two workers and never more
      than two plans running, one worker has both. */
  lemma ReleaseBeforeInsertion(a: Key, b: Key, c: Key, now: int)
    requires a != b && c != a && c != b
    ensures var start := State(TwoBusy(a, b), map[]);
            && AtMost(start, ReleaseInBetween(b, c, now), 2)
            && Load(Execute(start, ReleaseInBetween(b, c, now)).rows, 0) == 2
  {
    hide Next, Load, Running, TwoBusy;
    var s0, steps := State(TwoBusy(a, b), map[]), ReleaseInBetween(b, c, now);
    var s2 := Next(Next(s0, steps[0]), steps[1]);
    var s4 := Next(Next(s2, steps[2]), steps[3]);
    CountedBeforeRelease(a, b, c, now);
    InsertedAfterRelease(a, b, c, now);
    TwoBusyLoads(a, b);
    NextRows(s0, steps[0]);
    NextRows(s2, steps[2]);
    ThreeSteps(s0, steps[0], steps[1], steps[2]);
    TwoSteps(s0, steps[0], steps[1]);
    TwoSteps(Execute(s0, [steps[0], steps[1], steps[2]]), steps[3], steps[4]);
    ExecuteConcat(s0, [steps[0], steps[1], steps[2]], [steps[3], steps[4]]);
    assert [steps[0], steps[1], steps[2]] + [steps[3], steps[4]] == steps;
    forall i | 0 <= i <= 5 ensures Running(Execute(s0, steps[..i]).rows) <= 2 {
      assert steps[..5] == steps && steps[..5][..4] == steps[..4];
      assert steps[..3] == [steps[0], steps[1], steps[2]] && steps[..4][..3] == steps[..3];
      assert steps[..2] == [steps[0], steps[1]] && steps[..2][..1] == steps[..1] && steps[..1][..0] == [] == steps[..0];
      assert Execute(s0, steps[..1]) == Next(s0, steps[0]);
      assert Execute(s0, steps[..4]) == s4;
    }
  }

  lemma SixSteps(s: State, a: Step, b: Step, c: Step, d: Step, e: Step, f: Step)
    ensures Execute(s, [a, b, c, d, e, f]) == Next(Next(Next(Next(Next(Next(s, a), b), c), d), e), f)
  {
    hide Next;
    ThreeSteps(s, a, b, c);
    ThreeSteps(Execute(s, [a, b, c]), d, e, f);
    ExecuteConcat(s, [a, b, c], [d, e, f]);
    assert [a, b, c] + [d, e, f] == [a, b, c, d, e, f];
  }

  lemma ThreeSteps(s: State, a: Step, b: Step, c: Step)
    ensures Execute(s, [a, b, c]) == Next(Next(Next(s, a), b), c)
  {
    hide Next;
    TwoSteps(s, a, b);
    assert [a, b, c][..2] == [a, b];
  }

  lemma TwoSteps(s: State, a: Step, b: Step)
    ensures Execute(s, [a, b]) == Next(Next(s, a), b)
  {
    hide Next;
    assert [a, b][..1] == [a] && [a][..0] == [];
    assert Execute(s, [a]) == Next(s, a);
  }

  /** The queries of one operation run with nothing between them do what the operation does in one transaction. */
  lemma UninterleavedAcquire(s: State, p: Process, plan: Key, numWorkers: nat)
    requires PcOf(s, p) == Idle
    ensures Execute(s, [Step(p, ReadMapping(plan)), Step(p, Count(numWorkers)), Step(p, Insert)]).rows
         == After(s.rows, AcquireOp(plan), numWorkers)
  {
    hide Candidates, Choice, Execute;
    ThreeSteps(s, Step(p, ReadMapping(plan)), Step(p, Count(numWorkers)), Step(p, Insert));
  }

  lemma UninterleavedRelease(s: State, p: Process, plan: Key, numWorkers: nat, now: int)
    requires PcOf(s, p) == Idle
    ensures Execute(s, [Step(p, ReadForRelease(plan)), Step(p, SaveRelease(now))]).rows
        == After(s.rows, ReleaseOp(plan, now), numWorkers)
  {
    hide Acquire, Execute;
    TwoSteps(s, Step(p, ReadForRelease(plan)), Step(p, SaveRelease(now)));
  }
}
