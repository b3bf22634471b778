/** Runs over the asset buffer: batches, deletions, clears and new models, one after the other as the worker's
    asset-buffer lock makes them; and the data samples that a task needs beside its models. */
module BufferRuns {
  import opened Common
  import opened AssetBuffer

  /** `registered` is the orchestrator's register of models. */
  datatype State = State(models: Files, taskFiles: Files, registered: map<Key, Model>)

  datatype Step =
    | AddModels(requested: seq<Model>, outcomes: seq<Outcome>, order: seq<nat>)
    | Delete(keys: seq<Key>)
    | Clear(stuck: set<Key>)
    | WriteFile(path: string, content: Content)
    | Save(paths: seq<string>, keys: seq<Key>, taskKey: string, inOrchestrator: bool, inApi: bool)

  /** A batch asks for models as they are registered; a new model gets a key that no model has. */
  predicate Legal(s: State, step: Step) {
    match step
    case AddModels(requested, outcomes, order) =>
      && InBounds(order, requested, outcomes) && Ordering(order, |requested|)
      && forall i :: 0 <= i < |requested| ==>
           requested[i].key in s.registered && s.registered[requested[i].key] == requested[i]
    case Save(paths, keys, _, _, _) =>
      && |keys| == |paths|
      && (forall i, j :: 0 <= i < j < |keys| ==> keys[i] != keys[j])
      && forall i :: 0 <= i < |keys| ==> keys[i] !in s.registered
    case _ => true
  }

  function Register(registered: map<Key, Model>, ms: seq<Model>): map<Key, Model> {
    if ms == [] then registered
    else Register(registered, ms[..|ms| - 1])[ms[|ms| - 1].key := ms[|ms| - 1]]
  }

  function Next(hash: string -> string, s: State, step: Step): State
    requires Legal(s, step)
  {
    match step
    case AddModels(requested, outcomes, order) => s.(models := Batch(hash, s.models, requested, outcomes, order))
    case Delete(keys) => s.(models := s.models - (set i | 0 <= i < |keys| :: keys[i]))
    case Clear(stuck) => s.(models := map k | k in s.models && k in stuck :: s.models[k])
    case WriteFile(path, content) => s.(taskFiles := s.taskFiles[path := content])
    case Save(paths, keys, taskKey, inOrchestrator, inApi) =>
      var after := Saved(s.models, s.taskFiles, paths, keys, inOrchestrator && inApi);
      State(after.models, after.taskFiles,
            if Present(s.taskFiles, paths) && inOrchestrator
            then Register(s.registered, NewModels(hash, s.taskFiles, paths, keys, taskKey))
            else s.registered)
  }

  /** Every buffered model is registered and has its registered checksum. */
  predicate Intact(hash: string -> string, models: Files, registered: map<Key, Model>) {
    forall k :: k in models ==> k in registered && Matches(hash, registered[k], models[k])
  }

  /* ---------- batches ---------- */

  /** What one process leaves is intact exactly when it was not killed over a partial file with a wrong
      checksum. */
  lemma AddOneIntactExactly(hash: string -> string, models: Files, registered: map<Key, Model>, m: Model, o: Outcome)
    requires Intact(hash, models, registered) && m.key in registered && registered[m.key] == m
    ensures Intact(hash, AddOne(hash, models, m, o), registered) <==>
            (m.key !in models && o.Killed? && o.left.Some? ==> Matches(hash, m, o.left.value))
  {
  }

  /** The `l`-th process of a batch was not killed over a partial file with a wrong checksum. */
  predicate LeavesGood(hash: string -> string, models: Files, requested: seq<Model>, outcomes: seq<Outcome>,
                       order: seq<nat>, l: nat)
    requires InBounds(order, requested, outcomes) && l < |order|
  {
    var m, o := requested[order[l]], outcomes[order[l]];
    m.key !in AddAll(hash, models, requested, outcomes, order[..l]) && o.Killed? && o.left.Some? ==>
      Matches(hash, m, o.left.value)
  }

  lemma AddOneKeeps(hash: string -> string, models: Files, registered: map<Key, Model>, m: Model, o: Outcome)
    ensures Intact(hash, AddOne(hash, models, m, o), registered) ==> Intact(hash, models, registered)
  {
    hide Matches;
    var after := AddOne(hash, models, m, o);
    if Intact(hash, after, registered) {
      forall k | k in models ensures k in registered && Matches(hash, registered[k], models[k]) {
        assert k in after && after[k] == models[k];
      }
    }
  }

  /** The buffer that the processes of a batch leave, before any deletion, is intact exactly when none of them
      was killed over a partial file with a wrong checksum. */
  lemma {:induction false} ProcessesIntactExactly(hash: string -> string, models: Files, registered: map<Key, Model>,
                                                  requested: seq<Model>, outcomes: seq<Outcome>, order: seq<nat>)
    requires Intact(hash, models, registered) && InBounds(order, requested, outcomes)
    requires forall i :: 0 <= i < |requested| ==>
               requested[i].key in registered && registered[requested[i].key] == requested[i]
    ensures Intact(hash, AddAll(hash, models, requested, outcomes, order), registered) <==>
            forall l :: 0 <= l < |order| ==> LeavesGood(hash, models, requested, outcomes, order, l)
    decreases |order|
  {
    hide AddOne, Matches, Intact;
    if order != [] {
      var n := |order| - 1;
      var init, mid := order[..n], AddAll(hash, models, requested, outcomes, order[..n]);
      ProcessesIntactExactly(hash, models, registered, requested, outcomes, init);
      forall l | 0 <= l < n
        ensures LeavesGood(hash, models, requested, outcomes, init, l) <==>
                LeavesGood(hash, models, requested, outcomes, order, l)
      {
        assert init[..l] == order[..l] && init[l] == order[l];
      }
      AddOneKeeps(hash, mid, registered, requested[order[n]], outcomes[order[n]]);
      if Intact(hash, mid, registered) {
        AddOneIntactExactly(hash, mid, registered, requested[order[n]], outcomes[order[n]]);
        assert forall l :: 0 <= l < n ==> LeavesGood(hash, models, requested, outcomes, init, l);
        assert Intact(hash, AddAll(hash, models, requested, outcomes, order), registered) <==>
               LeavesGood(hash, models, requested, outcomes, order, n);
      } else {
        var l :| 0 <= l < n && !LeavesGood(hash, models, requested, outcomes, init, l);
        assert !LeavesGood(hash, models, requested, outcomes, order, l);
      }
    }
  }

  lemma {:induction false} WellEndedIntact(hash: string -> string, models: Files,
                                           registered: map<Key, Model>, requested: seq<Model>,
                                           outcomes: seq<Outcome>, order: seq<nat>)
    requires Intact(hash, models, registered) && InBounds(order, requested, outcomes)
    requires forall i :: 0 <= i < |requested| ==>
        requested[i].key in registered && registered[requested[i].key] == requested[i]
    requires AllExitWell(hash, models, requested, outcomes, order)
    ensures Intact(hash, AddAll(hash, models, requested, outcomes, order), registered)
    decreases |order|
  {
    hide AddOne, Succeeds, Matches;
    if order != [] {
      var n := |order| - 1;
      assert AllExitWell(hash, models, requested, outcomes, order[..n]) by {
        forall k | 0 <= k < n ensures ExitsWell(hash, models, requested, outcomes, order[..n], k) {
          assert ExitsWell(hash, models, requested, outcomes, order, k);
          assert order[..n][..k] == order[..k] && order[..n][k] == order[k];
        }
      }
      WellEndedIntact(hash, models, registered, requested, outcomes, order[..n]);
      assert ExitsWell(hash, models, requested, outcomes, order, n);
      SucceedingIntact(hash, AddAll(hash, models, requested, outcomes, order[..n]), registered, requested[order[n]],
                       outcomes[order[n]]);
    }
  }

  lemma SucceedingIntact(hash: string -> string, models: Files, registered: map<Key, Model>, m: Model, o: Outcome)
    requires Intact(hash, models, registered) && m.key in registered && registered[m.key] == m
        && Succeeds(hash, models, m, o)
    ensures Intact(hash, AddOne(hash, models, m, o), registered)
  {
  }

  /** Whatever happens to its processes, a whole batch keeps the buffer intact. */
  lemma BatchIntact(hash: string -> string, models: Files, registered: map<Key, Model>, requested: seq<Model>,
                    outcomes: seq<Outcome>, order: seq<nat>)
    requires Intact(hash, models, registered) && InBounds(order, requested, outcomes)
    requires forall i :: 0 <= i < |requested| ==>
        requested[i].key in registered && registered[requested[i].key] == requested[i]
    ensures Intact(hash, Batch(hash, models, requested, outcomes, order), registered)
  {
    hide AddAll, Matches;
    if AllExitWell(hash, models, requested, outcomes, order) {
      WellEndedIntact(hash, models, registered, requested, outcomes, order);
    } else {
      AddAllKeys(hash, models, requested, outcomes, order);
    }
  }

  /* ---------- new models ---------- */

  lemma {:induction false} RegisterExact(registered: map<Key, Model>, ms: seq<Model>)
    requires forall i, j :: 0 <= i < j < |ms| ==> ms[i].key != ms[j].key
    ensures var after := Register(registered, ms);
            && (forall i :: 0 <= i < |ms| ==> ms[i].key in after && after[ms[i].key] == ms[i])
            && (forall k :: k in registered ==> k in after)
            && (forall k :: k in registered && (forall i :: 0 <= i < |ms| ==> ms[i].key != k) ==>
                 after[k] == registered[k])
    decreases |ms|
  {
    if ms != [] {
      var init := ms[..|ms| - 1];
      RegisterExact(registered, init);
      forall i | 0 <= i < |ms|
          ensures ms[i].key in Register(registered, ms) && Register(registered, ms)[ms[i].key] == ms[i] {
        if i < |init| {
          assert init[i] == ms[i];
        }
      }
    }
  }

  /** A buffered model that was not there before is one of the task's files, as it was. */
  predicate ComesFrom(models: Files, taskFiles: Files, paths: seq<string>, keys: seq<Key>, k: Key, content: Content)
    requires |keys| == |paths| && Present(taskFiles, paths)
  {
    || (k in models && content == models[k])
    || exists i :: 0 <= i < |keys| && keys[i] == k && content == taskFiles[paths[i]]
  }

  lemma ComesFromMore(models: Files, taskFiles: Files, paths: seq<string>, keys: seq<Key>, k: Key, content: Content)
    requires |keys| == |paths| && paths != [] && Present(taskFiles, paths)
    requires ComesFrom(models, taskFiles, paths[..|paths| - 1], keys[..|keys| - 1], k, content)
    ensures ComesFrom(models, taskFiles, paths, keys, k, content)
  {
    var n := |paths| - 1;
    if !(k in models && content == models[k]) {
      var i :| 0 <= i < n && keys[..n][i] == k && content == taskFiles[paths[..n][i]];
      assert keys[i] == k && paths[i] == paths[..n][i];
    }
  }

  predicate AllComeFrom(models: Files, taskFiles: Files, paths: seq<string>, keys: seq<Key>, after: Files)
    requires |keys| == |paths| && Present(taskFiles, paths)
  {
    forall k :: k in after ==> ComesFrom(models, taskFiles, paths, keys, k, after[k])
  }

  predicate Unmoved(taskFiles: Files, left: Files) {
    forall p :: p in left ==> p in taskFiles && left[p] == taskFiles[p]
  }

  lemma OneMoreRenamed(models: Files, taskFiles: Files, paths: seq<string>, keys: seq<Key>, before: Saving)
    requires |keys| == |paths| && paths != [] && Present(taskFiles, paths)
    requires before == Renamed(models, taskFiles, paths[..|paths| - 1], keys[..|keys| - 1])
    requires Unmoved(taskFiles, before.taskFiles)
    requires AllComeFrom(models, taskFiles, paths[..|paths| - 1], keys[..|keys| - 1], before.models)
    ensures Unmoved(taskFiles, Renamed(models, taskFiles, paths, keys).taskFiles)
    ensures AllComeFrom(models, taskFiles, paths, keys, Renamed(models, taskFiles, paths, keys).models)
  {
    hide ComesFrom;
    var n, after := |paths| - 1, Renamed(models, taskFiles, paths, keys).models;
    forall k | k in after ensures ComesFrom(models, taskFiles, paths, keys, k, after[k]) {
      if before.ok && paths[n] in before.taskFiles && k == keys[n] {
        NewModel(models, taskFiles, paths, keys);
      } else {
        assert k in before.models && after[k] == before.models[k];
        ComesFromMore(models, taskFiles, paths, keys, k, before.models[k]);
      }
    }
  }

  /** A renamed file has the content its checksum was computed from. */
  lemma {:induction false} RenamedContents(models: Files, taskFiles: Files, paths: seq<string>, keys: seq<Key>)
    requires |keys| == |paths| && Present(taskFiles, paths)
    ensures Unmoved(taskFiles, Renamed(models, taskFiles, paths, keys).taskFiles)
    ensures AllComeFrom(models, taskFiles, paths, keys, Renamed(models, taskFiles, paths, keys).models)
    decreases |paths|
  {
    if paths != [] {
      var n := |paths| - 1;
      RenamedContents(models, taskFiles, paths[..n], keys[..n]);
      OneMoreRenamed(models, taskFiles, paths, keys, Renamed(models, taskFiles, paths[..n], keys[..n]));
    }
  }

  lemma KeptModel(models: Files, taskFiles: Files, paths: seq<string>, keys: seq<Key>, k: Key)
    requires |keys| == |paths| && Present(taskFiles, paths) && k in models
    ensures ComesFrom(models, taskFiles, paths, keys, k, models[k])
  {
  }

  lemma NewModel(models: Files, taskFiles: Files, paths: seq<string>, keys: seq<Key>)
    requires |keys| == |paths| && paths != [] && Present(taskFiles, paths)
    ensures ComesFrom(models, taskFiles, paths, keys, keys[|keys| - 1], taskFiles[paths[|paths| - 1]])
  {
  }

  lemma SavedModelIntact(hash: string -> string, s: State, paths: seq<string>, keys: seq<Key>, taskKey: string, k: Key,
                         content: Content)
    requires |keys| == |paths| && Present(s.taskFiles, paths) && Intact(hash, s.models, s.registered)
    requires forall i, j :: 0 <= i < j < |keys| ==> keys[i] != keys[j]
    requires forall i :: 0 <= i < |keys| ==> keys[i] !in s.registered
    requires ComesFrom(s.models, s.taskFiles, paths, keys, k, content)
    ensures var registered := Register(s.registered, NewModels(hash, s.taskFiles, paths, keys, taskKey));
            k in registered && Matches(hash, registered[k], content)
  {
    hide Register, Matches;
    var ms := NewModels(hash, s.taskFiles, paths, keys, taskKey);
    forall i | 0 <= i < |ms| ensures ms[i].key == keys[i] {}
    RegisterExact(s.registered, ms);
    if k in s.models && content == s.models[k] {
      assert Register(s.registered, ms)[k] == s.registered[k];
    } else {
      var i :| 0 <= i < |keys| && keys[i] == k && content == s.taskFiles[paths[i]];
      assert ms[i].key == k;
      NewModelMatches(hash, ms[i], content, taskKey);
    }
  }

  lemma SaveIntact(hash: string -> string, s: State, step: Step)
    requires step.Save? && Legal(s, step) && Intact(hash, s.models, s.registered)
    ensures Intact(hash, Next(hash, s, step).models, Next(hash, s, step).registered)
  {
    hide Register, Renamed, Matches, NewModels;
    var t := Next(hash, s, step);
    if Present(s.taskFiles, step.paths) && step.inOrchestrator {
      forall k | k in t.models ensures k in t.registered && Matches(hash, t.registered[k], t.models[k]) {
        RenamedContents(s.models, s.taskFiles, step.paths, step.keys);
        if !step.inApi {
          KeptModel(s.models, s.taskFiles, step.paths, step.keys, k);
        }
        SavedModelIntact(hash, s, step.paths, step.keys, step.taskKey, k, t.models[k]);
      }
    }
  }

  lemma NewModelMatches(hash: string -> string, m: Model, content: Content, taskKey: string)
    requires m.taskKey == taskKey && m.checksum == hash(content + taskKey)
    ensures Matches(hash, m, content)
  {
  }

  /* ---------- runs ---------- */

  ghost predicate LegalRun(hash: string -> string, s: State, steps: seq<Step>)
    decreases |steps|
  {
    steps != [] ==> Legal(s, steps[0]) && LegalRun(hash, Next(hash, s, steps[0]), steps[1..])
  }

  ghost function Execute(hash: string -> string, s: State, steps: seq<Step>): State
    requires LegalRun(hash, s, steps)
    decreases |steps|
  {
    if steps == [] then s else Execute(hash, Next(hash, s, steps[0]), steps[1..])
  }

  lemma NextIntact(hash: string -> string, s: State, step: Step)
    requires Legal(s, step) && Intact(hash, s.models, s.registered)
    ensures Intact(hash, Next(hash, s, step).models, Next(hash, s, step).registered)
  {
    hide Batch, Saved, Register, NewModels;
    match step {
      case AddModels(requested, outcomes, order) =>
        BatchIntact(hash, s.models, s.registered, requested, outcomes, order);
      case Save(_, _, _, _, _) => SaveIntact(hash, s, step);
      case _ =>
    }
  }

  /** Between any two operations of any run, every buffered model has its registered salted checksum. */
  lemma {:induction false} AlwaysIntact(hash: string -> string, s: State, steps: seq<Step>)
    requires Intact(hash, s.models, s.registered) && LegalRun(hash, s, steps)
    ensures var t := Execute(hash, s, steps); Intact(hash, t.models, t.registered)
    decreases |steps|
  {
    if steps != [] {
      NextIntact(hash, s, steps[0]);
      AlwaysIntact(hash, Next(hash, s, steps[0]), steps[1..]);
    }
  }

  /** A worker killed during a batch skips the deletion. The partial file it leaves is then taken for the model:
      the next batch succeeds with it, whatever it would have downloaded. */
  lemma LeftoverTaken(hash: string -> string, models: Files, m: Model, left: Content, answer: Answer, order: seq<nat>)
    requires m.key !in models && !Matches(hash, m, left) && order == [0]
    ensures var after := AddAll(hash, models, [m], [Killed(Some(left))], order);
            && AllExitWell(hash, after, [m], [Answered(answer)], order)
            && m.key in Batch(hash, after, [m], [Answered(answer)], order)
            && !Matches(hash, m, Batch(hash, after, [m], [Answered(answer)], order)[m.key])
  {
    hide Matches, Good;
    assert order[..|order| - 1] == [];
    assert AddOne(hash, models, m, Killed(Some(left))) == models[m.key := left];
    assert AddAll(hash, models, [m], [Killed(Some(left))], order[..|order| - 1]) == models;
    var after := AddAll(hash, models, [m], [Killed(Some(left))], order);
    assert after == models[m.key := left];
    assert AddAll(hash, after, [m], [Answered(answer)], order) == after;
    forall k | 0 <= k < 1 ensures ExitsWell(hash, after, [m], [Answered(answer)], order, k) {
    }
  }

  /* ---------- data samples ---------- */

  datatype Sample = Sample(key: Key, checksum: string)

  /** What fetching a sample gives: an exception before or during the extraction, or the extracted directory. */
  datatype Source = Unavailable | Broken(partial: Content) | Extracted(content: Content)

  /** The data_samples folder, which may be missing. */
  datatype Folder = Folder(present: bool, samples: Files)

  /** A wrong checksum removes the parent of the extracted directory, that is the whole folder. */
  function AddSample(dirHash: string -> string, f: Folder, s: Sample, source: Source): Folder {
    if s.key in f.samples || source.Unavailable? then f
    else if source.Broken? then f.(present := true)
    else if dirHash(source.content) == s.checksum then Folder(true, f.samples[s.key := source.content])
    else Folder(false, map[])
  }

  predicate SampleAdded(dirHash: string -> string, f: Folder, s: Sample, source: Source) {
    s.key in f.samples || (source.Extracted? && dirHash(source.content) == s.checksum)
  }

  function AddSamples(dirHash: string -> string, f: Folder, samples: seq<Sample>, sources: seq<Source>): Folder
    requires |samples| == |sources|
    decreases |samples|
  {
    if samples == [] || !SampleAdded(dirHash, f, samples[0], sources[0])
    then if samples == [] then f else AddSample(dirHash, f, samples[0], sources[0])
    else AddSamples(dirHash, AddSample(dirHash, f, samples[0], sources[0]), samples[1..], sources[1..])
  }

  predicate AllAdded(dirHash: string -> string, f: Folder, samples: seq<Sample>, sources: seq<Source>)
    requires |samples| == |sources|
    decreases |samples|
  {
    samples != [] ==>
      && SampleAdded(dirHash, f, samples[0], sources[0])
      && AllAdded(dirHash, AddSample(dirHash, f, samples[0], sources[0]), samples[1..], sources[1..])
  }

  class SampleBuffer {
    const dirHash: string -> string
    var folder: Folder

    constructor (dirHash: string -> string)
      ensures this.dirHash == dirHash && folder == Folder(true, map[])
    {
      this.dirHash, folder := dirHash, Folder(true, map[]);
    }

    /** Extraction into the folder, which it creates when missing, then the check. */
    method AddSampleInternal(s: Sample, source: Source) returns (ok: bool)
      modifies this
      ensures ok == (source.Extracted? && dirHash(source.content) == s.checksum)
      ensures folder == match source
                        case Unavailable => old(folder)
                        case Broken(partial) => Folder(true, old(folder).samples[s.key := partial])
                        case Extracted(content) =>
                          if ok then Folder(true, old(folder).samples[s.key := content]) else Folder(false, map[])
    {
      match source {
        case Unavailable =>
          return false;
        case Broken(partial) =>
          folder := Folder(true, folder.samples[s.key := partial]);
          return false;
        case Extracted(content) =>
          folder := Folder(true, folder.samples[s.key := content]);
          ok := dirHash(content) == s.checksum;
          if !ok {
            folder := Folder(false, map[]);
          }
      }
    }

    /** The same inside `add_to_buffer_safe`. */
    method AddSampleSafe(s: Sample, source: Source) returns (ok: bool)
      modifies this
      ensures ok == SampleAdded(dirHash, old(folder), s, source) && folder == AddSample(dirHash, old(folder), s, source)
    {
      if s.key in folder.samples {
        return true;
      }
      ok := AddSampleInternal(s, source);
      if !ok && s.key in folder.samples {
        folder := folder.(samples := folder.samples - {s.key});
      }
    }

    method AddDataSamples(samples: seq<Sample>, sources: seq<Source>) returns (ok: bool)
      requires |samples| == |sources|
      modifies this
      ensures folder == AddSamples(dirHash, old(folder), samples, sources)
      ensures ok == AllAdded(dirHash, old(folder), samples, sources)
      ensures ok ==> forall i :: 0 <= i < |samples| ==> samples[i].key in folder.samples
    {
      for i := 0 to |samples|
        invariant AddSamples(dirHash, old(folder), samples, sources)
            == AddSamples(dirHash, folder, samples[i..], sources[i..])
        invariant AllAdded(dirHash, old(folder), samples, sources)
            == AllAdded(dirHash, folder, samples[i..], sources[i..])
        invariant forall j :: 0 <= j < i ==> samples[j].key in folder.samples
      {
        assert samples[i..][1..] == samples[i + 1..] && sources[i..][1..] == sources[i + 1..];
        ok := AddSampleSafe(samples[i], sources[i]);
        if !ok {
          return;
        }
      }
      ok := true;
    }
  }

  /** Every sample in the folder has the checksum known for it. */
  predicate SamplesIntact(dirHash: string -> string, f: Folder, known: map<Key, Sample>) {
    (!f.present ==> f.samples == map[]) &&
    forall k :: k in f.samples ==> k in known && dirHash(f.samples[k]) == known[k].checksum
  }

  lemma {:induction false} SamplesStayIntact(dirHash: string -> string, f: Folder, samples: seq<Sample>,
                                             sources: seq<Source>, known: map<Key, Sample>)
    requires |samples| == |sources| && SamplesIntact(dirHash, f, known)
    requires forall i :: 0 <= i < |samples| ==> samples[i].key in known && known[samples[i].key] == samples[i]
    ensures SamplesIntact(dirHash, AddSamples(dirHash, f, samples, sources), known)
    decreases |samples|
  {
    if samples != [] && SampleAdded(dirHash, f, samples[0], sources[0]) {
      forall i | 0 <= i < |samples[1..]|
          ensures samples[1..][i].key in known && known[samples[1..][i].key] == samples[1..][i] {
        assert samples[1..][i] == samples[i + 1];
      }
      SamplesStayIntact(dirHash, AddSample(dirHash, f, samples[0], sources[0]), samples[1..], sources[1..], known);
    }
  }

  /** Sample `j` is in the folder at its turn, or comes whole. */
  predicate Fetchable(dirHash: string -> string, f: Folder, samples: seq<Sample>, sources: seq<Source>, j: nat)
    requires |samples| == |sources| && j < |samples|
  {
    || samples[j].key in f.samples
    || (exists l :: 0 <= l < j && samples[l].key == samples[j].key)
    || (sources[j].Extracted? && dirHash(sources[j].content) == samples[j].checksum)
  }

  /** Sample `i` is extracted with a wrong checksum. */
  predicate Wrong(dirHash: string -> string, f: Folder, samples: seq<Sample>, sources: seq<Source>, i: nat)
    requires |samples| == |sources| && i < |samples|
  {
    !Fetchable(dirHash, f, samples, sources, i) && sources[i].Extracted?
  }

  predicate StopsAtWrong(dirHash: string -> string, f: Folder, samples: seq<Sample>, sources: seq<Source>)
    requires |samples| == |sources|
  {
    exists i :: 0 <= i < |samples| && Wrong(dirHash, f, samples, sources, i)
             && forall j :: 0 <= j < i ==> Fetchable(dirHash, f, samples, sources, j)
  }

  lemma TailFetchable(dirHash: string -> string, f: Folder, samples: seq<Sample>, sources: seq<Source>, j: nat)
    requires |samples| == |sources| && j + 1 < |samples| && SampleAdded(dirHash, f, samples[0], sources[0])
    ensures Fetchable(dirHash, AddSample(dirHash, f, samples[0], sources[0]), samples[1..], sources[1..], j) <==>
            Fetchable(dirHash, f, samples, sources, j + 1)
  {
    var rest, after := samples[1..], AddSample(dirHash, f, samples[0], sources[0]);
    assert rest[j] == samples[j + 1] && sources[1..][j] == sources[j + 1];
    assert after.samples.Keys == f.samples.Keys + {samples[0].key};
    if l :| 0 <= l < j + 1 && samples[l].key == samples[j + 1].key {
      assert l > 0 ==> rest[l - 1] == samples[l];
    }
    if l :| 0 <= l < j && rest[l].key == rest[j].key {
      assert samples[l + 1] == rest[l];
    }
  }

  lemma StopsInTail(dirHash: string -> string, f: Folder, samples: seq<Sample>, sources: seq<Source>)
    requires |samples| == |sources| > 0 && SampleAdded(dirHash, f, samples[0], sources[0])
    ensures StopsAtWrong(dirHash, AddSample(dirHash, f, samples[0], sources[0]), samples[1..], sources[1..]) <==>
            StopsAtWrong(dirHash, f, samples, sources)
  {
    hide Fetchable, SampleAdded, AddSample;
    var after, rest, others := AddSample(dirHash, f, samples[0], sources[0]), samples[1..], sources[1..];
    FirstFetchable(dirHash, f, samples, sources);
    forall j | 0 <= j < |rest|
      ensures Fetchable(dirHash, after, rest, others, j) <==> Fetchable(dirHash, f, samples, sources, j + 1)
    {
      TailFetchable(dirHash, f, samples, sources, j);
    }
    if StopsAtWrong(dirHash, after, rest, others) {
      var i :| 0 <= i < |rest| && Wrong(dirHash, after, rest, others, i)
               && forall j :: 0 <= j < i ==> Fetchable(dirHash, after, rest, others, j);
      assert others[i] == sources[i + 1];
      forall j | 0 <= j < i + 1 ensures Fetchable(dirHash, f, samples, sources, j) {
        assert j > 0 ==> Fetchable(dirHash, after, rest, others, j - 1);
      }
      assert Wrong(dirHash, f, samples, sources, i + 1);
    }
    if StopsAtWrong(dirHash, f, samples, sources) {
      var i :| 0 <= i < |samples| && Wrong(dirHash, f, samples, sources, i)
               && forall j :: 0 <= j < i ==> Fetchable(dirHash, f, samples, sources, j);
      assert i > 0 && others[i - 1] == sources[i];
      assert Wrong(dirHash, after, rest, others, i - 1);
      forall j | 0 <= j < i - 1 ensures Fetchable(dirHash, after, rest, others, j) {
        assert Fetchable(dirHash, f, samples, sources, j + 1);
      }
    }
  }

  lemma FirstFetchable(dirHash: string -> string, f: Folder, samples: seq<Sample>, sources: seq<Source>)
    requires |samples| == |sources| > 0
    ensures Fetchable(dirHash, f, samples, sources, 0) <==> SampleAdded(dirHash, f, samples[0], sources[0])
  {
  }

  /** Adding samples loses one that was there exactly when the first of them that cannot be added has a wrong
      checksum: then all are lost, those just added too. */
  lemma {:induction false} SamplesLostExactly(dirHash: string -> string, f: Folder, samples: seq<Sample>,
                                              sources: seq<Source>, other: Key)
    requires |samples| == |sources| && other in f.samples
    ensures var after := AddSamples(dirHash, f, samples, sources);
            && (other !in after.samples <==> StopsAtWrong(dirHash, f, samples, sources))
            && (other !in after.samples ==> after == Folder(false, map[]))
    decreases |samples|
  {
    hide StopsAtWrong;
    if samples == [] {
      NothingWrong(dirHash, f, samples, sources);
    } else if SampleAdded(dirHash, f, samples[0], sources[0]) {
      StopsInTail(dirHash, f, samples, sources);
      SamplesLostExactly(dirHash, AddSample(dirHash, f, samples[0], sources[0]), samples[1..], sources[1..], other);
    } else {
      StopsAtFirst(dirHash, f, samples, sources);
    }
  }

  lemma NothingWrong(dirHash: string -> string, f: Folder, samples: seq<Sample>, sources: seq<Source>)
    requires samples == [] && sources == []
    ensures !StopsAtWrong(dirHash, f, samples, sources)
  {
  }

  lemma StopsAtFirst(dirHash: string -> string, f: Folder, samples: seq<Sample>, sources: seq<Source>)
    requires |samples| == |sources| > 0 && !SampleAdded(dirHash, f, samples[0], sources[0])
    ensures StopsAtWrong(dirHash, f, samples, sources) <==> sources[0].Extracted?
  {
    hide Fetchable, SampleAdded;
    FirstFetchable(dirHash, f, samples, sources);
    if sources[0].Extracted? {
      assert Wrong(dirHash, f, samples, sources, 0);
    }
  }

  /** The content that sample `k` has after all were added: what was there, or else what came for its first
      request. */
  function ContentOf(f: Folder, samples: seq<Sample>, sources: seq<Source>, k: Key): Option<Content>
    requires |samples| == |sources|
    decreases |samples|
  {
    if k in f.samples then Some(f.samples[k])
    else if samples == [] then None
    else if samples[0].key == k then if sources[0].Extracted? then Some(sources[0].content) else None
    else ContentOf(f, samples[1..], sources[1..], k)
  }

  /** All samples can be added exactly when each is there at its turn or comes whole with the right checksum. */
  lemma {:induction false} SamplesAddedExactly(dirHash: string -> string, f: Folder, samples: seq<Sample>,
                                               sources: seq<Source>)
    requires |samples| == |sources|
    ensures AllAdded(dirHash, f, samples, sources) <==>
            forall i :: 0 <= i < |samples| ==> Fetchable(dirHash, f, samples, sources, i)
    decreases |samples|
  {
    hide Fetchable, SampleAdded, AddSample;
    if samples != [] {
      var after, rest, others := AddSample(dirHash, f, samples[0], sources[0]), samples[1..], sources[1..];
      FirstFetchable(dirHash, f, samples, sources);
      if SampleAdded(dirHash, f, samples[0], sources[0]) {
        SamplesAddedExactly(dirHash, after, rest, others);
        forall j | 0 <= j < |rest|
          ensures Fetchable(dirHash, after, rest, others, j) <==> Fetchable(dirHash, f, samples, sources, j + 1)
        {
          TailFetchable(dirHash, f, samples, sources, j);
        }
        assert forall i :: 0 < i < |samples| ==>
            (Fetchable(dirHash, f, samples, sources, i) <==> Fetchable(dirHash, after, rest, others, i - 1));
      }
    }
  }

  /** Then the folder holds what it held, and the content that came first for each new sample. */
  lemma {:induction false} SamplesAllThere(dirHash: string -> string, f: Folder, samples: seq<Sample>,
                                           sources: seq<Source>, k: Key)
    requires |samples| == |sources| && AllAdded(dirHash, f, samples, sources)
    ensures var after := AddSamples(dirHash, f, samples, sources).samples;
            && (k in after <==> k in f.samples || exists i :: 0 <= i < |samples| && samples[i].key == k)
            && (k in after ==> ContentOf(f, samples, sources, k) == Some(after[k]))
    decreases |samples|
  {
    if samples != [] {
      var after, rest := AddSample(dirHash, f, samples[0], sources[0]), samples[1..];
      SamplesAllThere(dirHash, after, rest, sources[1..], k);
      assert forall i :: 0 <= i < |rest| ==> rest[i] == samples[i + 1];
      assert forall i :: 0 < i < |samples| ==> samples[i] == rest[i - 1];
      SameContent(dirHash, f, samples, sources, k);
    }
  }

  lemma SameContent(dirHash: string -> string, f: Folder, samples: seq<Sample>, sources: seq<Source>, k: Key)
    requires |samples| == |sources| > 0 && SampleAdded(dirHash, f, samples[0], sources[0])
    ensures ContentOf(AddSample(dirHash, f, samples[0], sources[0]), samples[1..], sources[1..], k)
         == ContentOf(f, samples, sources, k)
  {
    var after := AddSample(dirHash, f, samples[0], sources[0]);
    if k !in after.samples {
      SameElsewhere(after, f, samples[1..], sources[1..], k);
    }
  }

  lemma {:induction false} SameElsewhere(f: Folder, g: Folder, samples: seq<Sample>, sources: seq<Source>, k: Key)
    requires |samples| == |sources| && k !in f.samples && k !in g.samples
    ensures ContentOf(f, samples, sources, k) == ContentOf(g, samples, sources, k)
    decreases |samples|
  {
    if samples != [] {
      SameElsewhere(f, g, samples[1..], sources[1..], k);
    }
  }
}
