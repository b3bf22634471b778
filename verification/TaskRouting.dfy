/** backend/substrapp/task_routing.py: each compute plan is mapped to one worker, the least loaded one when the
    mapping is made. Rows of the mapping table are kept for ever; a released one has a release date. */
module TaskRouting {
  import opened Common

  type Key = string

  datatype Mapping = Mapping(plan: Key, worker: int, releaseDate: Option<int>)

  predicate Active(m: Mapping) {
    m.releaseDate.None?
  }

  /** The partial unique constraint: at most one unreleased row per plan. */
  predicate Unique(rows: seq<Mapping>) {
    forall i, j :: 0 <= i < j < |rows| && Active(rows[i]) && Active(rows[j]) ==> rows[i].plan != rows[j].plan
  }

  /** The position of the unreleased row of a plan. */
  function FindRow(rows: seq<Mapping>, plan: Key): (r: Option<nat>)
    ensures r.Some? ==> r.value < |rows| && Active(rows[r.value]) && rows[r.value].plan == plan
    ensures r.None? ==> forall i :: 0 <= i < |rows| ==> !(Active(rows[i]) && rows[i].plan == plan)
  {
    if rows == [] then None
    else
      var n := |rows| - 1;
      var before := FindRow(rows[..n], plan);
      if before.Some? then before
      else if Active(rows[n]) && rows[n].plan == plan then Some(n)
      else
        assert forall i :: 0 <= i < n ==> rows[i] == rows[..n][i];
        None
  }

  /** How many plans run on a worker. */
  function Load(rows: seq<Mapping>, worker: int): nat {
    if rows == [] then 0
    else
      var n := |rows| - 1;
      Load(rows[..n], worker) + if Active(rows[n]) && rows[n].worker == worker then 1 else 0
  }

  /** How many plans run. */
  function Running(rows: seq<Mapping>): nat {
    if rows == [] then 0
    else
      var n := |rows| - 1;
      Running(rows[..n]) + if Active(rows[n]) then 1 else 0
  }

  /** The workers with an unreleased row. */
  function Busy(rows: seq<Mapping>): set<int> {
    set i | 0 <= i < |rows| && Active(rows[i]) :: rows[i].worker
  }

  /** range(n) */
  function Workers(n: nat): (ws: set<int>)
    ensures forall w :: w in ws <==> 0 <= w < n
  {
    if n == 0 then {} else Workers(n - 1) + {n - 1}
  }

  /** The keys of `count_by_idx`: the current workers, and any other worker with an unreleased row. */
  function Candidates(rows: seq<Mapping>, numWorkers: nat): set<int> {
    Workers(numWorkers) + Busy(rows)
  }

  function Fewest(rows: seq<Mapping>, numWorkers: nat): set<int> {
    set w | w in Candidates(rows, numWorkers)
         && forall c :: c in Candidates(rows, numWorkers) ==> Load(rows, w) <= Load(rows, c)
  }

  /** The first of the candidates with the fewest plans. */
  predicate Least(rows: seq<Mapping>, numWorkers: nat, w: int) {
    w in Fewest(rows, numWorkers) && forall c :: c in Fewest(rows, numWorkers) ==> w <= c
  }

  lemma Inhabited(s: set<int>)
    ensures s != {} ==> exists x :: x in s
  {
    if forall x :: x !in s {
      assert s == {};
    }
  }

  lemma {:induction false} FewestExists(rows: seq<Mapping>, cs: set<int>) returns (w: int)
    requires cs != {}
    ensures w in cs && forall c :: c in cs ==> Load(rows, w) <= Load(rows, c)
    decreases cs
  {
    Inhabited(cs);
    var some: int :| some in cs;
    w := some;
    if cs != {some} {
      var other := FewestExists(rows, cs - {some});
      w := if Load(rows, other) <= Load(rows, some) then other else some;
    }
  }

  lemma {:induction false} FirstExists(cs: set<int>) returns (w: int)
    requires cs != {}
    ensures w in cs && forall c :: c in cs ==> w <= c
    decreases cs
  {
    Inhabited(cs);
    var some: int :| some in cs;
    w := some;
    if cs != {some} {
      var other := FirstExists(cs - {some});
      w := if other <= some then other else some;
      forall c | c in cs ensures w <= c {
        assert c == some || c in cs - {some};
      }
    }
  }

  lemma LeastExists(rows: seq<Mapping>, numWorkers: nat) returns (w: int)
    requires Candidates(rows, numWorkers) != {}
    ensures Least(rows, numWorkers, w)
  {
    var some := FewestExists(rows, Candidates(rows, numWorkers));
    assert some in Fewest(rows, numWorkers);
    w := FirstExists(Fewest(rows, numWorkers));
  }

  /** The worker a plan without a mapping gets, when there is any. */
  ghost function Choice(rows: seq<Mapping>, numWorkers: nat): (w: int)
    requires Candidates(rows, numWorkers) != {}
    ensures Least(rows, numWorkers, w)
  {
    assert exists w :: Least(rows, numWorkers, w) by {
      var w := LeastExists(rows, numWorkers);
    }
    var w :| Least(rows, numWorkers, w);
    w
  }

  lemma LeastUnique(rows: seq<Mapping>, numWorkers: nat, v: int, w: int)
    requires Least(rows, numWorkers, v) && Least(rows, numWorkers, w)
    ensures v == w
  {
  }

  lemma {:induction false} IdleNoLoad(rows: seq<Mapping>, worker: int)
    ensures worker in Busy(rows) <==> Load(rows, worker) > 0
  {
    if rows != [] {
      var n := |rows| - 1;
      IdleNoLoad(rows[..n], worker);
      if worker in Busy(rows[..n]) {
        var i :| 0 <= i < n && Active(rows[..n][i]) && rows[..n][i].worker == worker;
        assert rows[i].worker in Busy(rows);
      }
      if worker in Busy(rows) {
        var i :| 0 <= i < |rows| && Active(rows[i]) && rows[i].worker == worker;
        assert i < n ==> rows[..n][i].worker in Busy(rows[..n]);
      }
    }
  }

  /* ---------- the operations ---------- */

  function Released(rows: seq<Mapping>, plan: Key, now: int): seq<Mapping> {
    var i := FindRow(rows, plan);
    if i.None? then rows else rows[i.value := rows[i.value].(releaseDate := Some(now))]
  }

  datatype Acquired = Acquired(rows: seq<Mapping>, worker: int)

  /** No answer when there is no candidate: no worker and no unreleased row. */
  ghost function Acquire(rows: seq<Mapping>, plan: Key, numWorkers: nat): Option<Acquired> {
    var i := FindRow(rows, plan);
    if i.Some? then Some(Acquired(rows, rows[i.value].worker))
    else if Candidates(rows, numWorkers) == {} then None
    else
      var w := Choice(rows, numWorkers);
      Some(Acquired(rows + [Mapping(plan, w, None)], w))
  }

  /** min(counts.values()) */
  method MinOf(counts: map<int, nat>) returns (least: nat)
    requires counts != map[]
    ensures exists w :: w in counts && counts[w] == least
    ensures forall w :: w in counts ==> least <= counts[w]
  {
    assert counts.Keys != {};
    Inhabited(counts.Keys);
    var first: int :| first in counts;
    least := counts[first];
    var rest := counts.Keys - {first};
    while rest != {}
      invariant rest <= counts.Keys
      invariant exists w :: w in counts && counts[w] == least
      invariant forall w :: w in counts && w !in rest ==> least <= counts[w]
      decreases rest
    {
      Inhabited(rest);
      var w :| w in rest;
      if counts[w] < least {
        least := counts[w];
      }
      rest := rest - {w};
    }
  }

  /** sorted(s)[0] */
  method FirstOf(s: set<int>) returns (first: int)
    requires s != {}
    ensures first in s && forall c :: c in s ==> first <= c
  {
    Inhabited(s);
    first :| first in s;
    var rest := s - {first};
    while rest != {}
      invariant rest <= s && first in s
      invariant forall c :: c in s ==> c in rest || first <= c
      decreases rest
    {
      Inhabited(rest);
      var next :| next in rest;
      if next < first {
        first := next;
      }
      rest := rest - {next};
    }
  }

  class MappingTable {
    var rows: seq<Mapping>

    method FindMapping(plan: Key) returns (r: Option<nat>)
      ensures r == FindRow(rows, plan)
    {
      for i := 0 to |rows|
        invariant FindRow(rows[..i], plan) == None
      {
        assert rows[..i + 1][..i] == rows[..i];
        if rows[i].releaseDate == None && rows[i].plan == plan {
          FoundStays(rows, plan, i + 1);
          return Some(i);
        }
      }
      assert rows[..|rows|] == rows;
      r := None;
    }

    method GetExistingWorker(plan: Key) returns (r: Option<int>)
      ensures r == match FindRow(rows, plan) case Some(i) => Some(rows[i].worker) case None => None
    {
      var i := FindMapping(plan);
      r := if i.Some? then Some(rows[i.value].worker) else None;
    }

    method ReleaseWorker(plan: Key, now: int)
      modifies this
      ensures rows == Released(old(rows), plan, now)
    {
      var i := FindMapping(plan);
      if i.None? {
        return;
      }
      rows := rows[i.value := rows[i.value].(releaseDate := Some(now))];
    }

    /** The unreleased rows counted by worker, as the database groups them. */
    function CountPerWorker(): map<int, nat>
      reads this
    {
      map w | w in Busy(rows) :: Load(rows, w)
    }

    method GetWorkersWithFewestRunningCps(numWorkers: nat) returns (r: Option<set<int>>)
      ensures r == if Candidates(rows, numWorkers) == {} then None else Some(Fewest(rows, numWorkers))
    {
      var counted := CountPerWorker();
      var countByIdx: map<int, nat> := map w | w in Workers(numWorkers) :: 0;
      var left := counted.Keys;
      while left != {}
        invariant left <= counted.Keys
        invariant countByIdx.Keys == Workers(numWorkers) + (counted.Keys - left)
        invariant forall w :: w in countByIdx ==> countByIdx[w] == if w in counted.Keys - left then counted[w] else 0
        decreases left
      {
        var w :| w in left;
        countByIdx := countByIdx[w := counted[w]];
        left := left - {w};
      }
      forall w | w in countByIdx ensures countByIdx[w] == Load(rows, w) {
        IdleNoLoad(rows, w);
      }
      assert countByIdx.Keys == Candidates(rows, numWorkers);
      if countByIdx == map[] {
        return None;
      }
      var minCount := MinOf(countByIdx);
      r := Some(set w | w in countByIdx && countByIdx[w] == minCount);
      assert r.value == Fewest(rows, numWorkers);
    }

    method AcquireWorkerIndex(plan: Key, numWorkers: nat) returns (r: Option<int>)
      modifies this
      ensures match Acquire(old(rows), plan, numWorkers)
              case Some(a) => rows == a.rows && r == Some(a.worker)
              case None => rows == old(rows) && r == None
    {
      var i := FindMapping(plan);
      if i.Some? {
        return Some(rows[i.value].worker);
      }
      var eligible := GetWorkersWithFewestRunningCps(numWorkers);
      if eligible.None? {
        return None;
      }
      ghost var some := LeastExists(rows, numWorkers);
      var worker := FirstOf(eligible.value);
      LeastUnique(rows, numWorkers, worker, Choice(rows, numWorkers));
      rows := rows + [Mapping(plan, worker, None)];
      r := Some(worker);
    }
  }

  lemma {:induction false} FoundStays(rows: seq<Mapping>, plan: Key, n: nat)
    requires n <= |rows| && FindRow(rows[..n], plan).Some?
    ensures FindRow(rows, plan) == FindRow(rows[..n], plan)
    decreases |rows|
  {
    if n == |rows| {
      assert rows[..n] == rows;
    } else {
      var init := rows[..|rows| - 1];
      assert init[..n] == rows[..n];
      FoundStays(init, plan, n);
    }
  }

  /* ---------- lookups after an acquire and after a release ---------- */

  lemma FindRowOf(rows: seq<Mapping>, i: nat)
    requires Unique(rows) && i < |rows| && Active(rows[i])
    ensures FindRow(rows, rows[i].plan) == Some(i)
  {
  }

  /** The same rows unreleased for a plan, the same lookup. */
  lemma SameLookup(before: seq<Mapping>, after: seq<Mapping>, plan: Key)
    requires Unique(before) && Unique(after) && |before| <= |after|
    requires forall i :: 0 <= i < |before| && before[i].plan == plan ==> after[i] == before[i]
    requires forall i :: |before| <= i < |after| ==> after[i].plan != plan
    requires forall i :: 0 <= i < |before| && after[i].plan == plan ==> before[i].plan == plan
    ensures FindRow(after, plan) == FindRow(before, plan)
  {
    var i := FindRow(before, plan);
    if i.Some? {
      FindRowOf(after, i.value);
    }
  }

  /** After an acquire the plan is found on the worker answered, and every other plan where it was. */
  lemma AcquireFinds(rows: seq<Mapping>, plan: Key, numWorkers: nat, other: Key)
    requires Unique(rows) && Acquire(rows, plan, numWorkers).Some? && other != plan
    ensures var a := Acquire(rows, plan, numWorkers).value;
            && Unique(a.rows) && FindRow(a.rows, other) == FindRow(rows, other)
            && FindRow(a.rows, plan).Some? && a.rows[FindRow(a.rows, plan).value].worker == a.worker
  {
    hide Choice, Candidates;
    var a := Acquire(rows, plan, numWorkers).value;
    if FindRow(rows, plan).None? {
      FindRowOf(a.rows, |rows|);
    }
    SameLookup(rows, a.rows, other);
  }

  /** An acquire adds a row exactly for a plan that has no unreleased one, and touches no other. */
  lemma AcquireAdds(rows: seq<Mapping>, plan: Key, numWorkers: nat)
    requires Acquire(rows, plan, numWorkers).Some?
    ensures var a := Acquire(rows, plan, numWorkers).value;
            if exists i :: 0 <= i < |rows| && Active(rows[i]) && rows[i].plan == plan then a.rows == rows
            else a.rows == rows + [Mapping(plan, a.worker, None)]
  {
    hide Choice, Candidates;
    var found := FindRow(rows, plan);
    if found.Some? {
      assert Active(rows[found.value]) && rows[found.value].plan == plan;
    }
  }

  /** After a release the plan is not found, and every other plan where it was. The unreleased row of the plan
      has the date of the release, and every other row is as it was. */
  lemma ReleaseFrees(rows: seq<Mapping>, plan: Key, now: int, other: Key)
    requires Unique(rows) && other != plan
    ensures var released := Released(rows, plan, now);
            && Unique(released) && FindRow(released, plan) == None && FindRow(released, other) == FindRow(rows, other)
            && |released| == |rows|
            && forall i :: 0 <= i < |rows| ==>
                 released[i] == if Active(rows[i]) && rows[i].plan == plan then Mapping(plan, rows[i].worker, Some(now))
                                else rows[i]
  {
    var released := Released(rows, plan, now);
    SameLookup(rows, released, other);
    var i := FindRow(released, plan);
    if i.Some? {
      FindRowOf(rows, i.value);
    }
  }

  /* ---------- runs, one transaction at a time ---------- */

  datatype Op = AcquireOp(plan: Key) | ReleaseOp(plan: Key, now: int)

  ghost function After(rows: seq<Mapping>, op: Op, numWorkers: nat): seq<Mapping> {
    match op
    case AcquireOp(plan) =>
      (match Acquire(rows, plan, numWorkers) case Some(a) => a.rows case None => rows)
    case ReleaseOp(plan, now) => Released(rows, plan, now)
  }

  ghost function Run(start: seq<Mapping>, ops: seq<Op>, numWorkers: nat): seq<Mapping> {
    if ops == [] then start
    else After(Run(start, ops[..|ops| - 1], numWorkers), ops[|ops| - 1], numWorkers)
  }

  function Max(a: nat, b: nat): nat {
    if a < b then b else a
  }

  /** The most plans that ran at once. */
  ghost function Peak(start: seq<Mapping>, ops: seq<Op>, numWorkers: nat): nat {
    if ops == [] then Running(start)
    else Max(Peak(start, ops[..|ops| - 1], numWorkers), Running(Run(start, ops, numWorkers)))
  }

  /** Every plan runs on a current worker. */
  predicate InRange(rows: seq<Mapping>, numWorkers: nat) {
    forall i :: 0 <= i < |rows| && Active(rows[i]) ==> 0 <= rows[i].worker < numWorkers
  }

  lemma {:induction false} ReleaseLoads(rows: seq<Mapping>, i: nat, m: Mapping, worker: int)
    requires i < |rows| && Active(rows[i]) && !Active(m)
    ensures Load(rows[i := m], worker) == Load(rows, worker) - if rows[i].worker == worker then 1 else 0
    ensures Running(rows[i := m]) == Running(rows) - 1
    decreases |rows|
  {
    var n := |rows| - 1;
    if i < n {
      assert rows[i := m][..n] == rows[..n][i := m];
      ReleaseLoads(rows[..n], i, m, worker);
    } else {
      assert rows[i := m][..n] == rows[..n];
    }
  }

  /** The plans of the first `k` workers. */
  function Total(rows: seq<Mapping>, k: nat): nat {
    if k == 0 then 0 else Total(rows, k - 1) + Load(rows, k - 1)
  }

  lemma {:induction false} TotalGrows(rows: seq<Mapping>, k: nat)
    requires rows != []
    ensures var m := rows[|rows| - 1];
            Total(rows, k) == Total(rows[..|rows| - 1], k) + if Active(m) && 0 <= m.worker < k then 1 else 0
    decreases k
  {
    if k > 0 {
      TotalGrows(rows, k - 1);
    }
  }

  lemma {:induction false} TotalEmpty(k: nat)
    ensures Total([], k) == 0
    decreases k
  {
    if k > 0 {
      TotalEmpty(k - 1);
    }
  }

  lemma {:induction false} TotalBelowRunning(rows: seq<Mapping>, k: nat)
    ensures Total(rows, k) <= Running(rows)
    decreases |rows|
  {
    if rows == [] {
      TotalEmpty(k);
    } else {
      TotalBelowRunning(rows[..|rows| - 1], k);
      TotalGrows(rows, k);
    }
  }

  lemma {:induction false} TotalAtLeast(rows: seq<Mapping>, k: nat, least: nat)
    requires forall w :: 0 <= w < k ==> least <= Load(rows, w)
    ensures k * least <= Total(rows, k)
    decreases k
  {
    if k > 0 {
      TotalAtLeast(rows, k - 1, least);
      assert k * least == (k - 1) * least + least;
    }
  }

  /** No worker has more plans than an even share of `peak`, rounded up. */
  ghost predicate Shared(rows: seq<Mapping>, numWorkers: nat, peak: nat) {
    forall w :: Load(rows, w) > 0 ==> numWorkers * (Load(rows, w) - 1) < peak
  }

  /** A plan put on a least loaded worker. */
  lemma InsertShared(rows: seq<Mapping>, plan: Key, numWorkers: nat, peak: nat)
    requires numWorkers > 0 && InRange(rows, numWorkers) && Shared(rows, numWorkers, peak)
    ensures Candidates(rows, numWorkers) == Workers(numWorkers) != {}
    ensures var after := rows + [Mapping(plan, Choice(rows, numWorkers), None)];
            InRange(after, numWorkers) && Shared(after, numWorkers, Max(peak, Running(after)))
  {
    assert 0 in Workers(numWorkers);
    assert Candidates(rows, numWorkers) == Workers(numWorkers);
    var v := Choice(rows, numWorkers);
    var after := rows + [Mapping(plan, v, None)];
    assert after[..|rows|] == rows;
    TotalAtLeast(rows, numWorkers, Load(rows, v));
    TotalBelowRunning(rows, numWorkers);
    forall w | Load(after, w) > 0 ensures numWorkers * (Load(after, w) - 1) < Max(peak, Running(after)) {
      if w != v {
        assert Load(rows, w) == Load(after, w);
      }
    }
  }

  lemma AcquireShared(rows: seq<Mapping>, plan: Key, numWorkers: nat, peak: nat)
    requires numWorkers > 0 && InRange(rows, numWorkers) && Shared(rows, numWorkers, peak)
    ensures Acquire(rows, plan, numWorkers).Some?
    ensures var after := Acquire(rows, plan, numWorkers).value.rows;
            && InRange(after, numWorkers) && Shared(after, numWorkers, Max(peak, Running(after)))
  {
    hide Shared, Choice, Load, InRange;
    InsertShared(rows, plan, numWorkers, peak);
    SharedGrows(rows, numWorkers, peak, Max(peak, Running(rows)));
  }

  lemma SharedGrows(rows: seq<Mapping>, numWorkers: nat, peak: nat, peak': nat)
    requires Shared(rows, numWorkers, peak) && peak <= peak'
    ensures Shared(rows, numWorkers, peak')
  {
  }

  lemma {:induction false} SameLoads(rows: seq<Mapping>, i: nat, m: Mapping, worker: int)
    requires i < |rows| && !Active(rows[i]) && !Active(m)
    ensures Load(rows[i := m], worker) == Load(rows, worker) && Running(rows[i := m]) == Running(rows)
    decreases |rows|
  {
    var n := |rows| - 1;
    if i < n {
      assert rows[i := m][..n] == rows[..n][i := m];
      SameLoads(rows[..n], i, m, worker);
    } else {
      assert rows[i := m][..n] == rows[..n];
    }
  }

  lemma FewerPlans(numWorkers: nat, load: nat, before: nat, peak: nat)
    requires 0 < load <= before && numWorkers * (before - 1) < peak
    ensures numWorkers * (load - 1) < peak
  {
    Multiples(numWorkers, before - load);
    assert numWorkers * (before - load) == numWorkers * (before - 1) - numWorkers * (load - 1);
  }

  /** A row saved with a release date. */
  lemma SaveShared(rows: seq<Mapping>, i: nat, m: Mapping, numWorkers: nat, peak: nat)
    requires i < |rows| && !Active(m) && InRange(rows, numWorkers) && Shared(rows, numWorkers, peak)
    ensures InRange(rows[i := m], numWorkers) && Shared(rows[i := m], numWorkers, peak)
  {
    var after := rows[i := m];
    forall w | Load(after, w) > 0 ensures numWorkers * (Load(after, w) - 1) < peak {
      if Active(rows[i]) {
        ReleaseLoads(rows, i, m, w);
      } else {
        SameLoads(rows, i, m, w);
      }
      FewerPlans(numWorkers, Load(after, w), Load(rows, w), peak);
    }
  }

  lemma ReleaseShared(rows: seq<Mapping>, plan: Key, now: int, numWorkers: nat, peak: nat)
    requires InRange(rows, numWorkers) && Shared(rows, numWorkers, peak)
    ensures InRange(Released(rows, plan, now), numWorkers) && Shared(Released(rows, plan, now), numWorkers, peak)
  {
    hide Shared, InRange, Load;
    var i := FindRow(rows, plan);
    if i.Some? {
      SaveShared(rows, i.value, rows[i.value].(releaseDate := Some(now)), numWorkers, peak);
    }
  }

  lemma {:induction false} RunShared(start: seq<Mapping>, ops: seq<Op>, numWorkers: nat)
    requires numWorkers > 0 && InRange(start, numWorkers) && Shared(start, numWorkers, Running(start))
    ensures InRange(Run(start, ops, numWorkers), numWorkers)
    ensures Shared(Run(start, ops, numWorkers), numWorkers, Peak(start, ops, numWorkers))
    decreases |ops|
  {
    if ops != [] {
      var init, last := ops[..|ops| - 1], ops[|ops| - 1];
      RunShared(start, init, numWorkers);
      var before, peak := Run(start, init, numWorkers), Peak(start, init, numWorkers);
      match last {
        case AcquireOp(plan) => AcquireShared(before, plan, numWorkers, peak);
        case ReleaseOp(plan, now) => ReleaseShared(before, plan, now, numWorkers, peak);
      }
      SharedGrows(Run(start, ops, numWorkers), numWorkers,
                  if last.AcquireOp? then Max(peak, Running(Run(start, ops, numWorkers))) else peak,
                  Peak(start, ops, numWorkers));
    }
  }

  /** An even share, rounded up. */
  function CeilDiv(peak: nat, numWorkers: nat): nat
    requires numWorkers > 0
  {
    (peak + numWorkers - 1) / numWorkers
  }

  lemma CeilBound(load: nat, numWorkers: nat, peak: nat)
    requires numWorkers > 0 && (load > 0 ==> numWorkers * (load - 1) < peak)
    ensures load <= CeilDiv(peak, numWorkers)
  {
    var q := CeilDiv(peak, numWorkers);
    Multiples(numWorkers, load - 1 - q);
    assert numWorkers * (load - 1 - q) == numWorkers * (load - 1) - numWorkers * q;
  }

  lemma Multiples(n: nat, k: int)
    ensures k >= 0 ==> n * k >= 0
    ensures k >= 1 ==> n * k >= n
    ensures k <= -1 ==> n * k <= 0 - n
  {
  }

  lemma SharedBound(rows: seq<Mapping>, numWorkers: nat, peak: nat, worker: int)
    requires numWorkers > 0 && Shared(rows, numWorkers, peak)
    ensures Load(rows, worker) <= CeilDiv(peak, numWorkers)
  {
    hide CeilDiv, Load;
    CeilBound(Load(rows, worker), numWorkers, peak);
  }

  lemma NoneRunningShared(rows: seq<Mapping>, numWorkers: nat)
    requires Running(rows) == 0
    ensures InRange(rows, numWorkers) && Shared(rows, numWorkers, 0)
  {
    NoneRunning(rows);
    forall w ensures Load(rows, w) == 0 {
      IdleNoLoad(rows, w);
    }
  }

  /** Over any run that starts with no plan running and a fixed number of workers, no worker ever has more
      plans than the peak divided by the number of workers, rounded up. */
  lemma LoadBound(start: seq<Mapping>, ops: seq<Op>, numWorkers: nat, worker: int)
    requires numWorkers > 0 && Running(start) == 0
    ensures Load(Run(start, ops, numWorkers), worker) <= CeilDiv(Peak(start, ops, numWorkers), numWorkers)
  {
    hide Load, Running, CeilDiv, Shared, InRange;
    NoneRunningShared(start, numWorkers);
    RunShared(start, ops, numWorkers);
    SharedBound(Run(start, ops, numWorkers), numWorkers, Peak(start, ops, numWorkers), worker);
  }

  lemma {:induction false} NoneRunning(rows: seq<Mapping>)
    requires Running(rows) == 0
    ensures forall i :: 0 <= i < |rows| ==> !Active(rows[i])
    decreases |rows|
  {
    if rows != [] {
      NoneRunning(rows[..|rows| - 1]);
    }
  }

  /* ---------- after a scale-down ---------- */

  /** A current worker with no more plans than each vanished worker that still has some. */
  predicate Covers(rows: seq<Mapping>, numWorkers: nat, w: int) {
    0 <= w < numWorkers && forall v :: v in Busy(rows) && numWorkers <= v ==> Load(rows, w) <= Load(rows, v)
  }

  /** A plan without a mapping is sent to a worker that exists exactly when there is such a worker. */
  lemma ChoiceExistsExactly(rows: seq<Mapping>, numWorkers: nat)
    requires Candidates(rows, numWorkers) != {} && forall v :: v in Busy(rows) ==> 0 <= v
    ensures Choice(rows, numWorkers) < numWorkers <==> exists w :: Covers(rows, numWorkers, w)
  {
    var c := Choice(rows, numWorkers);
    if c < numWorkers {
      assert Covers(rows, numWorkers, c);
    }
    forall w | Covers(rows, numWorkers, w) ensures c < numWorkers {
      assert numWorkers <= c ==> c in Busy(rows);
      if Load(rows, w) <= Load(rows, c) {
        forall d | d in Candidates(rows, numWorkers) ensures Load(rows, w) <= Load(rows, d) {
          assert Load(rows, c) <= Load(rows, d);
        }
        assert w in Fewest(rows, numWorkers);
      }
    }
  }

  /* ---------- plans one after the other, none released ---------- */

  function Acquires(plans: seq<Key>): seq<Op> {
    seq(|plans|, i requires 0 <= i < |plans| => AcquireOp(plans[i]))
  }

  function RoundRobin(plans: seq<Key>, numWorkers: nat): seq<Mapping>
    requires numWorkers > 0
  {
    seq(|plans|, i requires 0 <= i < |plans| => Mapping(plans[i], i % numWorkers, None))
  }

  lemma DivModStep(k: nat, n: nat)
    requires n > 0
    ensures if k % n == n - 1 then (k + 1) / n == k / n + 1 && (k + 1) % n == 0
            else (k + 1) / n == k / n && (k + 1) % n == k % n + 1
  {
    var q, r := k / n, k % n;
    assert k == n * q + r;
    if r == n - 1 {
      assert k + 1 == n * (q + 1);
      DivModOf(q + 1, 0, n);
    } else {
      DivModOf(q, r + 1, n);
    }
  }

  lemma DivModOf(q: nat, r: nat, n: nat)
    requires r < n
    ensures (n * q + r) / n == q && (n * q + r) % n == r
  {
    var a, b := (n * q + r) / n, (n * q + r) % n;
    assert n * q + r == n * a + b;
    Multiples(n, q - a);
    assert n * (q - a) == b - r;
  }

  lemma {:induction false} RoundRobinLoads(plans: seq<Key>, numWorkers: nat, w: nat)
    requires w < numWorkers
    ensures Load(RoundRobin(plans, numWorkers), w)
         == |plans| / numWorkers + if w < |plans| % numWorkers then 1 else 0
    decreases |plans|
  {
    if plans != [] {
      var k := |plans| - 1;
      var rows := RoundRobin(plans, numWorkers);
      assert rows[..k] == RoundRobin(plans[..k], numWorkers);
      RoundRobinLoads(plans[..k], numWorkers, w);
      DivModStep(k, numWorkers);
    }
  }

  lemma LeastInTurn(rows: seq<Mapping>, numWorkers: nat, q: nat, r: nat)
    requires r < numWorkers && Candidates(rows, numWorkers) == Workers(numWorkers)
    requires forall w :: 0 <= w < numWorkers ==> Load(rows, w) == q + if w < r then 1 else 0
    ensures Least(rows, numWorkers, r)
  {
  }

  lemma NextInTurn(plans: seq<Key>, plan: Key, numWorkers: nat)
    requires numWorkers > 0 && forall i :: 0 <= i < |plans| ==> plans[i] != plan
    ensures var before, next := RoundRobin(plans, numWorkers), |plans| % numWorkers;
            Acquire(before, plan, numWorkers) == Some(Acquired(before + [Mapping(plan, next, None)], next))
  {
    hide Load, Least;
    var before, next := RoundRobin(plans, numWorkers), |plans| % numWorkers;
    forall w | 0 <= w < numWorkers ensures Load(before, w) == |plans| / numWorkers + if w < next then 1 else 0 {
      RoundRobinLoads(plans, numWorkers, w);
    }
    assert next in Workers(numWorkers);
    assert Candidates(before, numWorkers) == Workers(numWorkers);
    LeastInTurn(before, numWorkers, |plans| / numWorkers, next);
    LeastUnique(before, numWorkers, next, Choice(before, numWorkers));
  }

  /** The k-th fresh plan gets worker k mod n. */
  lemma {:induction false} PlacedInTurn(plans: seq<Key>, numWorkers: nat)
    requires numWorkers > 0 && forall i, j :: 0 <= i < j < |plans| ==> plans[i] != plans[j]
    ensures Run([], Acquires(plans), numWorkers) == RoundRobin(plans, numWorkers)
    decreases |plans|
  {
    hide Acquire;
    if plans != [] {
      var k := |plans| - 1;
      PlacedInTurn(plans[..k], numWorkers);
      NextInTurn(plans[..k], plans[k], numWorkers);
      assert Acquires(plans)[..k] == Acquires(plans[..k]);
      assert RoundRobin(plans, numWorkers)
          == RoundRobin(plans[..k], numWorkers) + [Mapping(plans[k], k % numWorkers, None)];
    }
  }

  /** So loads never differ by more than one. */
  lemma EvenlyPlaced(plans: seq<Key>, numWorkers: nat, v: nat, w: nat)
    requires v < numWorkers && w < numWorkers && forall i, j :: 0 <= i < j < |plans| ==> plans[i] != plans[j]
    ensures var rows := Run([], Acquires(plans), numWorkers); Load(rows, v) <= Load(rows, w) + 1
  {
    PlacedInTurn(plans, numWorkers);
    RoundRobinLoads(plans, numWorkers, v);
    RoundRobinLoads(plans, numWorkers, w);
  }
}
