/** backend/substrapp/compute_tasks/asset_buffer.py, with the download of
    backend/substrapp/clients/organization.py and the saving of new models of
    backend/substrapp/compute_tasks/outputs.py. `hash` stands for the SHA-256 digest of a byte string. */
module AssetBuffer {
  import opened Common

  type Key = string
  type Content = string

  /** A model as the orchestrator registers it; the task's key salts its checksum. */
  datatype Model = Model(key: Key, checksum: string, taskKey: string)

  /** What a download receives: nothing but an error, or chunks that an exception may cut. */
  datatype Answer = Refused | Stream(chunks: seq<Content>, broken: bool)

  /** How a download process ends: by itself, or killed with whatever it had written. */
  datatype Outcome = Answered(answer: Answer) | Killed(left: Option<Content>)

  type Files = map<Key, Content>

  function Concat(chunks: seq<Content>): Content {
    if chunks == [] then "" else Concat(chunks[..|chunks| - 1]) + chunks[|chunks| - 1]
  }

  /** The content has the model's salted checksum. */
  predicate Matches(hash: string -> string, m: Model, content: Content) {
    hash(content + m.taskKey) == m.checksum
  }

  /** The whole model was received. */
  predicate Good(hash: string -> string, m: Model, a: Answer) {
    a.Stream? && !a.broken && Matches(hash, m, Concat(a.chunks))
  }

  /* ---------- one model ---------- */

  /** A download: not atomic, a cut one leaves what was written. */
  function Downloaded(hash: string -> string, models: Files, m: Model, a: Answer): Files {
    if a.Stream? && (a.broken || Good(hash, m, a)) then models[m.key := Concat(a.chunks)] else models
  }

  /** One process: a model already there is left alone, a failed download leaves nothing, a killed process
      leaves what it had. */
  function AddOne(hash: string -> string, models: Files, m: Model, o: Outcome): Files {
    if m.key in models then models
    else
      match o
      case Answered(a) => if Good(hash, m, a) then models[m.key := Concat(a.chunks)] else models
      case Killed(left) => if left.None? then models else models[m.key := left.value]
  }

  predicate Succeeds(hash: string -> string, models: Files, m: Model, o: Outcome) {
    o.Answered? && (m.key in models || Good(hash, m, o.answer))
  }

  /* ---------- a batch, one process per model ---------- */

  /** The order in which the processes get to their model. */
  predicate Ordering(order: seq<nat>, n: nat) {
    && (forall k :: 0 <= k < |order| ==> order[k] < n)
    && (forall k, l :: 0 <= k < l < |order| ==> order[k] != order[l])
    && (forall i :: 0 <= i < n ==> Runs(order, i))
  }

  predicate Runs(order: seq<nat>, i: nat) {
    exists k :: 0 <= k < |order| && order[k] == i
  }

  predicate InBounds(order: seq<nat>, requested: seq<Model>, outcomes: seq<Outcome>) {
    |outcomes| == |requested| && forall k :: 0 <= k < |order| ==> order[k] < |requested|
  }

  function AddAll(hash: string -> string, models: Files, requested: seq<Model>, outcomes: seq<Outcome>,
                  order: seq<nat>): Files
    requires InBounds(order, requested, outcomes)
  {
    if order == [] then models
    else
      var k := |order| - 1;
      AddOne(hash, AddAll(hash, models, requested, outcomes, order[..k]), requested[order[k]], outcomes[order[k]])
  }

  /** The exit code of the `k`-th process is 0. */
  predicate ExitsWell(hash: string -> string, models: Files, requested: seq<Model>, outcomes: seq<Outcome>,
                      order: seq<nat>, k: nat)
    requires InBounds(order, requested, outcomes) && k < |order|
  {
    Succeeds(hash, AddAll(hash, models, requested, outcomes, order[..k]), requested[order[k]], outcomes[order[k]])
  }

  predicate AllExitWell(hash: string -> string, models: Files, requested: seq<Model>, outcomes: seq<Outcome>,
                        order: seq<nat>)
    requires InBounds(order, requested, outcomes)
  {
    forall k :: 0 <= k < |order| ==> ExitsWell(hash, models, requested, outcomes, order, k)
  }

  function KeysOf(requested: seq<Model>): set<Key> {
    set i | 0 <= i < |requested| :: requested[i].key
  }

  /** The buffer after a batch. */
  function Batch(hash: string -> string, models: Files, requested: seq<Model>, outcomes: seq<Outcome>,
                 order: seq<nat>): Files
    requires InBounds(order, requested, outcomes)
  {
    var after := AddAll(hash, models, requested, outcomes, order);
    if AllExitWell(hash, models, requested, outcomes, order) then after else after - KeysOf(requested)
  }

  /* ---------- the buffer ---------- */

  class Buffer {
    const hash: string -> string
    var models: Files
    /** The files of the task directory. */
    var taskFiles: Files

    constructor (hash: string -> string)
      ensures this.hash == hash && models == map[] && taskFiles == map[]
    {
      this.hash, models, taskFiles := hash, map[], map[];
    }

    method Download(m: Model, a: Answer) returns (ok: bool)
      requires m.key !in models
      modifies this`models
      ensures ok == Good(hash, m, a) && models == Downloaded(hash, old(models), m, a)
    {
      if a.Refused? {
        return false;
      }
      models := models[m.key := ""];
      var digested := "";
      for i := 0 to |a.chunks|
        invariant digested == Concat(a.chunks[..i])
        invariant models == old(models)[m.key := digested]
      {
        assert a.chunks[..i + 1][..i] == a.chunks[..i];
        models := models[m.key := models[m.key] + a.chunks[i]];
        digested := digested + a.chunks[i];
      }
      assert a.chunks[..|a.chunks|] == a.chunks;
      if a.broken {
        return false;
      }
      ok := hash(digested + m.taskKey) == m.checksum;
      if !ok {
        models := models - {m.key};
      }
    }

    /** The download inside `add_to_buffer_safe`. */
    method AddModelSafe(m: Model, a: Answer) returns (ok: bool)
      modifies this`models
      ensures ok == Succeeds(hash, old(models), m, Answered(a)) && models == AddOne(hash, old(models), m, Answered(a))
    {
      if m.key in models {
        return true;
      }
      ok := Download(m, a);
      if !ok && m.key in models {
        models := models - {m.key};
      }
    }

    method RunProcess(m: Model, o: Outcome) returns (exit0: bool)
      modifies this`models
      ensures exit0 == Succeeds(hash, old(models), m, o) && models == AddOne(hash, old(models), m, o)
    {
      match o {
        case Answered(a) =>
          exit0 := AddModelSafe(m, a);
        case Killed(left) =>
          if m.key !in models && left.Some? {
            models := models[m.key := left.value];
          }
          exit0 := false;
      }
    }

    method DeleteModels(keys: seq<Key>)
      modifies this`models
      ensures models == old(models) - (set i | 0 <= i < |keys| :: keys[i])
    {
      for i := 0 to |keys|
        invariant models == old(models) - (set j | 0 <= j < i :: keys[j])
      {
        if keys[i] in models {
          models := models - {keys[i]};
        }
      }
    }

    method AddModelsToBuffer(requested: seq<Model>, outcomes: seq<Outcome>, order: seq<nat>) returns (ok: bool)
      requires |outcomes| == |requested| && Ordering(order, |requested|)
      modifies this`models
      ensures ok == AllExitWell(hash, old(models), requested, outcomes, order)
      ensures models == Batch(hash, old(models), requested, outcomes, order)
    {
      hide AddOne, Succeeds;
      var exits := StartAll(requested, outcomes, order);
      var exceptions := JoinAll(requested, exits);
      ok := exceptions == [];
      assert ok == AllExitWell(hash, old(models), requested, outcomes, order) by {
        if AllExitWell(hash, old(models), requested, outcomes, order) {
          forall i | 0 <= i < |requested| ensures exits[i] {
            assert Runs(order, i);
            var l :| 0 <= l < |order| && order[l] == i;
            assert ExitsWell(hash, old(models), requested, outcomes, order, l);
          }
        }
      }
      if !ok {
        var keys := seq(|requested|, i requires 0 <= i < |requested| => requested[i].key);
        assert (set i | 0 <= i < |keys| :: keys[i]) == KeysOf(requested) by {
          forall i | 0 <= i < |keys| ensures keys[i] == requested[i].key {}
        }
        DeleteModels(keys);
      }
    }

    /** The processes, each in its turn on its model. */
    method StartAll(requested: seq<Model>, outcomes: seq<Outcome>, order: seq<nat>) returns (exits: map<nat, bool>)
      requires |outcomes| == |requested| && Ordering(order, |requested|)
      modifies this`models
      ensures models == AddAll(hash, old(models), requested, outcomes, order)
      ensures forall i :: 0 <= i < |requested| ==> i in exits
      ensures forall l :: 0 <= l < |order| ==>
                order[l] in exits && exits[order[l]] == ExitsWell(hash, old(models), requested, outcomes, order, l)
    {
      hide AddOne, Succeeds;
      exits := map[];
      for k := 0 to |order|
        invariant models == AddAll(hash, old(models), requested, outcomes, order[..k])
        invariant forall l :: 0 <= l < k ==> order[l] in exits
        invariant forall l :: 0 <= l < k ==>
            exits[order[l]] == ExitsWell(hash, old(models), requested, outcomes, order, l)
      {
        assert order[..k + 1][..k] == order[..k];
        var exit0 := RunProcess(requested[order[k]], outcomes[order[k]]);
        exits := exits[order[k] := exit0];
      }
      assert order[..|order|] == order;
      forall i | 0 <= i < |requested| ensures i in exits {
        assert Runs(order, i);
      }
    }

    /** The requests whose process did not exit with 0. */
    method JoinAll(requested: seq<Model>, exits: map<nat, bool>) returns (exceptions: seq<Model>)
      requires forall i :: 0 <= i < |requested| ==> i in exits
      ensures exceptions == [] <==> forall i :: 0 <= i < |requested| ==> exits[i]
    {
      exceptions := [];
      for i := 0 to |requested|
        invariant exceptions == [] <==> forall j :: 0 <= j < i ==> exits[j]
      {
        if !exits[i] {
          exceptions := exceptions + [requested[i]];
        }
      }
    }

    /** The models' part of clear_assets_buffer: a file whose removal fails stays. */
    method ClearModels(stuck: set<Key>)
      modifies this`models
      ensures models == map k | k in old(models) && k in stuck :: old(models)[k]
    {
      var listed := models.Keys;
      while listed != {}
        invariant listed <= old(models).Keys
        invariant models == map k | k in old(models) && (k in listed || k in stuck) :: old(models)[k]
        decreases listed
      {
        var k :| k in listed;
        if k !in stuck {
          models := models - {k};
        }
        listed := listed - {k};
      }
    }

    /** os.rename raises for a missing path, and replaces what it finds at the destination. */
    method AddModelFromPath(path: string, key: Key) returns (ok: bool)
      modifies this
      ensures ok == (path in old(taskFiles))
      ensures models == if ok then old(models)[key := old(taskFiles)[path]] else old(models)
      ensures taskFiles == if ok then old(taskFiles) - {path} else old(taskFiles)
    {
      ok := path in taskFiles;
      if ok {
        models := models[key := taskFiles[path]];
        taskFiles := taskFiles - {path};
      }
    }

    /** `_save_models`: checksums of the task's files, registration, then one rename per file. */
    method SaveModels(paths: seq<string>, keys: seq<Key>, taskKey: string, inOrchestrator: bool, inApi: bool)
      returns (ok: bool, newModels: seq<Model>)
      requires |keys| == |paths|
      modifies this
      ensures var after := Saved(old(models), old(taskFiles), paths, keys, inOrchestrator && inApi);
              models == after.models && taskFiles == after.taskFiles && ok == after.ok
      ensures newModels
          == if Present(old(taskFiles), paths) then NewModels(hash, old(taskFiles), paths, keys, taskKey) else []
    {
      hide Renamed;
      ok, newModels := SaveLocally(paths, keys, taskKey);
      if !ok {
        return;
      }
      if !(inOrchestrator && inApi) {
        return false, newModels;
      }
      ok := RenameAll(paths, keys);
    }

    /** The checksum of each file, under the key its copy in the local storage gets. */
    method SaveLocally(paths: seq<string>, keys: seq<Key>, taskKey: string) returns (ok: bool, newModels: seq<Model>)
      requires |keys| == |paths|
      ensures ok == Present(taskFiles, paths)
      ensures newModels == if ok then NewModels(hash, taskFiles, paths, keys, taskKey) else []
    {
      newModels := [];
      for i := 0 to |paths|
        invariant Present(taskFiles, paths[..i])
        invariant newModels == NewModels(hash, taskFiles, paths[..i], keys[..i], taskKey)
      {
        if paths[i] !in taskFiles {
          return false, [];
        }
        newModels := newModels + [Model(keys[i], hash(taskFiles[paths[i]] + taskKey), taskKey)];
      }
      assert paths[..|paths|] == paths && keys[..|keys|] == keys;
      ok := true;
    }

    method RenameAll(paths: seq<string>, keys: seq<Key>) returns (ok: bool)
      requires |keys| == |paths|
      modifies this
      ensures Renamed(old(models), old(taskFiles), paths, keys) == Saving(models, taskFiles, ok)
    {
      for i := 0 to |paths|
        invariant Renamed(old(models), old(taskFiles), paths[..i], keys[..i]) == Saving(models, taskFiles, true)
      {
        assert paths[..i + 1][..i] == paths[..i] && keys[..i + 1][..i] == keys[..i];
        ok := AddModelFromPath(paths[i], keys[i]);
        if !ok {
          RenameStops(old(models), old(taskFiles), paths, keys, i + 1);
          return;
        }
      }
      assert paths[..|paths|] == paths && keys[..|keys|] == keys;
      ok := true;
    }
  }

  /* ---------- saving new models ---------- */

  datatype Saving = Saving(models: Files, taskFiles: Files, ok: bool)

  predicate Present(taskFiles: Files, paths: seq<string>) {
    forall i :: 0 <= i < |paths| ==> paths[i] in taskFiles
  }

  function NewModels(hash: string -> string, taskFiles: Files, paths: seq<string>, keys: seq<Key>,
                     taskKey: string): seq<Model>
    requires |keys| == |paths| && Present(taskFiles, paths)
  {
    seq(|paths|, i requires 0 <= i < |paths| => Model(keys[i], hash(taskFiles[paths[i]] + taskKey), taskKey))
  }

  function Renamed(models: Files, taskFiles: Files, paths: seq<string>, keys: seq<Key>): Saving
    requires |keys| == |paths|
  {
    if paths == [] then Saving(models, taskFiles, true)
    else
      var n := |paths| - 1;
      var before := Renamed(models, taskFiles, paths[..n], keys[..n]);
      if !before.ok then before
      else if paths[n] !in before.taskFiles then before.(ok := false)
      else Saving(before.models[keys[n] := before.taskFiles[paths[n]]], before.taskFiles - {paths[n]}, true)
  }

  lemma {:induction false} RenameStops(models: Files, taskFiles: Files, paths: seq<string>, keys: seq<Key>, n: nat)
    requires |keys| == |paths| && n <= |paths| && !Renamed(models, taskFiles, paths[..n], keys[..n]).ok
    ensures Renamed(models, taskFiles, paths, keys) == Renamed(models, taskFiles, paths[..n], keys[..n])
    decreases |paths|
  {
    if n == |paths| {
      assert paths[..n] == paths && keys[..n] == keys;
    } else {
      var m := |paths| - 1;
      assert paths[..m][..n] == paths[..n] && keys[..m][..n] == keys[..n];
      RenameStops(models, taskFiles, paths[..m], keys[..m], n);
    }
  }

  function Saved(models: Files, taskFiles: Files, paths: seq<string>, keys: seq<Key>, registered: bool): Saving
    requires |keys| == |paths|
  {
    if Present(taskFiles, paths) && registered then Renamed(models, taskFiles, paths, keys)
    else Saving(models, taskFiles, false)
  }

  predicate Distinct(paths: seq<string>) {
    forall i, j :: 0 <= i < j < |paths| ==> paths[i] != paths[j]
  }

  lemma {:induction false} RenamedFiles(models: Files, taskFiles: Files, paths: seq<string>, keys: seq<Key>)
    requires |keys| == |paths| && Present(taskFiles, paths)
    ensures var after := Renamed(models, taskFiles, paths, keys);
            && (after.ok <==> Distinct(paths))
            && (after.ok ==> after.taskFiles == taskFiles - (set i | 0 <= i < |paths| :: paths[i]))
    decreases |paths|
  {
    if paths != [] {
      var n := |paths| - 1;
      var moved := set i | 0 <= i < n :: paths[..n][i];
      RenamedFiles(models, taskFiles, paths[..n], keys[..n]);
      if Distinct(paths[..n]) {
        assert paths[n] in moved <==> !Distinct(paths);
        assert (set i | 0 <= i < |paths| :: paths[i]) == moved + {paths[n]};
      }
    }
  }

  lemma {:induction false} RenamedModels(models: Files, taskFiles: Files, paths: seq<string>, keys: seq<Key>)
    requires |keys| == |paths| && Present(taskFiles, paths) && Distinct(paths) && Distinct(keys)
    ensures var after := Renamed(models, taskFiles, paths, keys);
            forall i :: 0 <= i < |keys| ==> keys[i] in after.models && after.models[keys[i]] == taskFiles[paths[i]]
    decreases |paths|
  {
    if paths != [] {
      var n := |paths| - 1;
      RenamedModels(models, taskFiles, paths[..n], keys[..n]);
      RenamedFiles(models, taskFiles, paths, keys);
      RenamedFiles(models, taskFiles, paths[..n], keys[..n]);
      var before, after := Renamed(models, taskFiles, paths[..n], keys[..n]), Renamed(models, taskFiles, paths, keys);
      forall i | 0 <= i < |keys| ensures keys[i] in after.models && after.models[keys[i]] == taskFiles[paths[i]] {
        if i < n {
          assert keys[..n][i] in before.models && paths[..n][i] == paths[i];
        }
      }
    }
  }

  lemma {:induction false} RenamedKeys(models: Files, taskFiles: Files, paths: seq<string>, keys: seq<Key>)
    requires |keys| == |paths|
    ensures var after := Renamed(models, taskFiles, paths, keys);
            && (after.ok ==> after.models.Keys == models.Keys + set i | 0 <= i < |keys| :: keys[i])
            && (forall k :: k in models && k !in keys ==> k in after.models && after.models[k] == models[k])
    decreases |paths|
  {
    if paths != [] {
      var n := |paths| - 1;
      RenamedKeys(models, taskFiles, paths[..n], keys[..n]);
      assert (set i | 0 <= i < |keys| :: keys[i]) == (set i | 0 <= i < n :: keys[..n][i]) + {keys[n]};
    }
  }

  /** New models are saved exactly when every file is there, no file is named twice and both registrations
      succeed; then each is in the buffer with its file's content, every other model is as it was, and the files
      have left the directory. When a file is missing or a registration fails nothing moves. */
  lemma SaveSucceedsExactly(models: Files, taskFiles: Files, paths: seq<string>, keys: seq<Key>, registered: bool)
    requires |keys| == |paths| && Distinct(keys)
    ensures var after := Saved(models, taskFiles, paths, keys, registered);
            && (after.ok <==> registered && Present(taskFiles, paths) && Distinct(paths))
            && (!(registered && Present(taskFiles, paths)) ==> after == Saving(models, taskFiles, false))
            && (after.ok ==> after.taskFiles == taskFiles - (set i | 0 <= i < |paths| :: paths[i]))
            && (after.ok ==> after.models.Keys == models.Keys + set i | 0 <= i < |keys| :: keys[i])
            && (after.ok ==> forall k :: k in models && k !in keys ==> after.models[k] == models[k])
            && (after.ok ==> forall i :: 0 <= i < |keys| ==>
                 keys[i] in after.models && after.models[keys[i]] == taskFiles[paths[i]])
  {
    hide Renamed;
    if registered && Present(taskFiles, paths) {
      RenamedFiles(models, taskFiles, paths, keys);
      RenamedKeys(models, taskFiles, paths, keys);
      if Distinct(paths) {
        RenamedModels(models, taskFiles, paths, keys);
      }
    }
  }

  /* ---------- what a batch does ---------- */

  /** The processes add models that were asked for, and nothing else changes. */
  lemma {:induction false} AddAllKeys(hash: string -> string, models: Files, requested: seq<Model>,
                                      outcomes: seq<Outcome>, order: seq<nat>)
    requires InBounds(order, requested, outcomes)
    ensures var after := AddAll(hash, models, requested, outcomes, order);
            && (forall k :: k in models ==> k in after && after[k] == models[k])
            && (forall k :: k in after ==> k in models || k in KeysOf(requested))
    decreases |order|
  {
    hide Good;
    if order != [] {
      var n := |order| - 1;
      AddAllKeys(hash, models, requested, outcomes, order[..n]);
      assert requested[order[n]].key in KeysOf(requested);
    }
  }

  lemma SucceedsPresent(hash: string -> string, models: Files, m: Model, o: Outcome)
    ensures Succeeds(hash, models, m, o) ==> m.key in AddOne(hash, models, m, o)
    ensures models.Keys <= AddOne(hash, models, m, o).Keys
  {
    hide Good;
  }

  /** A process that exits well leaves its model there. */
  lemma {:induction false} ExitsWellPresent(hash: string -> string, models: Files, requested: seq<Model>,
                                            outcomes: seq<Outcome>, order: seq<nat>, l: nat)
    requires InBounds(order, requested, outcomes) && l < |order|
    requires ExitsWell(hash, models, requested, outcomes, order, l)
    ensures requested[order[l]].key in AddAll(hash, models, requested, outcomes, order)
    decreases |order|
  {
    hide AddOne, Succeeds;
    var n := |order| - 1;
    SucceedsPresent(hash, AddAll(hash, models, requested, outcomes, order[..n]), requested[order[n]],
                    outcomes[order[n]]);
    if l < n {
      assert order[..n][..l] == order[..l] && order[..n][l] == order[l];
      ExitsWellPresent(hash, models, requested, outcomes, order[..n], l);
    }
  }

  /** A batch either leaves every model asked for in the buffer or none; what was there before stays as it was,
      unless the batch fails and asked for it. */
  lemma AllOrNothing(hash: string -> string, models: Files, requested: seq<Model>, outcomes: seq<Outcome>,
                     order: seq<nat>)
    requires InBounds(order, requested, outcomes) && Ordering(order, |requested|)
    ensures var after, ok :=
        Batch(hash, models, requested, outcomes, order), AllExitWell(hash, models, requested, outcomes, order);
            && (forall i :: 0 <= i < |requested| ==> (requested[i].key in after <==> ok))
            && (forall k :: k !in KeysOf(requested) ==> (k in after <==> k in models))
            && (forall k :: k in models && (ok || k !in KeysOf(requested)) ==> k in after && after[k] == models[k])
  {
    AddAllKeys(hash, models, requested, outcomes, order);
    forall i | 0 <= i < |requested|
      ensures requested[i].key in Batch(hash, models, requested, outcomes, order) <==>
              AllExitWell(hash, models, requested, outcomes, order)
    {
      assert Runs(order, i);
      var l :| 0 <= l < |order| && order[l] == i;
      if AllExitWell(hash, models, requested, outcomes, order) {
        assert ExitsWell(hash, models, requested, outcomes, order, l);
        ExitsWellPresent(hash, models, requested, outcomes, order, l);
      }
      assert requested[i].key in KeysOf(requested);
    }
  }

  /** The `l`-th process is the first one for its key. */
  predicate First(requested: seq<Model>, order: seq<nat>, l: nat)
    requires l < |order| && forall k :: 0 <= k < |order| ==> order[k] < |requested|
  {
    forall k :: 0 <= k < l ==> requested[order[k]].key != requested[order[l]].key
  }

  predicate GoodEnough(hash: string -> string, models: Files, requested: seq<Model>, outcomes: seq<Outcome>,
                       order: seq<nat>, l: nat)
    requires InBounds(order, requested, outcomes) && l < |order|
  {
    && outcomes[order[l]].Answered?
    && (First(requested, order, l) && requested[order[l]].key !in models ==>
          Good(hash, requested[order[l]], outcomes[order[l]].answer))
  }

  lemma {:induction false} NotAsked(hash: string -> string, models: Files, requested: seq<Model>,
                                    outcomes: seq<Outcome>, order: seq<nat>, key: Key)
    requires InBounds(order, requested, outcomes) && key !in models
    requires forall k :: 0 <= k < |order| ==> requested[order[k]].key != key
    ensures key !in AddAll(hash, models, requested, outcomes, order)
    decreases |order|
  {
    if order != [] {
      NotAsked(hash, models, requested, outcomes, order[..|order| - 1], key);
    }
  }

  /** A batch succeeds exactly when no process is killed and the first download of each missing model is whole
      and has the registered checksum. */
  lemma BatchSucceedsExactly(hash: string -> string, models: Files, requested: seq<Model>, outcomes: seq<Outcome>,
                             order: seq<nat>)
    requires InBounds(order, requested, outcomes)
    ensures AllExitWell(hash, models, requested, outcomes, order) <==>
            forall l :: 0 <= l < |order| ==> GoodEnough(hash, models, requested, outcomes, order, l)
  {
    if AllExitWell(hash, models, requested, outcomes, order) {
      forall l | 0 <= l < |order| ensures GoodEnough(hash, models, requested, outcomes, order, l) {
        assert ExitsWell(hash, models, requested, outcomes, order, l);
        var key := requested[order[l]].key;
        if First(requested, order, l) && key !in models {
          NotAsked(hash, models, requested, outcomes, order[..l], key);
        }
      }
    }
    if forall l :: 0 <= l < |order| ==> GoodEnough(hash, models, requested, outcomes, order, l) {
      forall l | 0 <= l < |order| ensures ExitsWell(hash, models, requested, outcomes, order, l) {
        GoodPrefixExits(hash, models, requested, outcomes, order, l);
      }
    }
  }

  lemma {:induction false} GoodPrefixExits(hash: string -> string, models: Files, requested: seq<Model>,
                                           outcomes: seq<Outcome>, order: seq<nat>, l: nat)
    requires InBounds(order, requested, outcomes) && l < |order|
    requires forall k :: 0 <= k <= l ==> GoodEnough(hash, models, requested, outcomes, order, k)
    ensures ExitsWell(hash, models, requested, outcomes, order, l)
    decreases l
  {
    assert GoodEnough(hash, models, requested, outcomes, order, l);
    AddAllKeys(hash, models, requested, outcomes, order[..l]);
    if !First(requested, order, l) {
      var k :| 0 <= k < l && requested[order[k]].key == requested[order[l]].key;
      GoodPrefixExits(hash, models, requested, outcomes, order, k);
      assert order[..l][..k] == order[..k] && order[..l][k] == order[k];
      assert ExitsWell(hash, models, requested, outcomes, order[..l], k);
      ExitsWellPresent(hash, models, requested, outcomes, order[..l], k);
    }
  }
}
