/** The input and output tables of compute tasks, and the resolved input assets that join them.
    Two code paths write the join: eagerly when a task is created (backend/api/serializers/computetask.py),
    lazily when a parent's output asset arrives (backend/api/events/sync.py). */
module TaskLinks {
  import opened Common
  import opened Rows

  function AssetsOf(l: Links, out: OutputId): seq<AssetRef> {
    if out in l.outputAssets then l.outputAssets[out] else []
  }

  function InputIds(task: Key, n: nat): set<InputId> {
    set i | 0 <= i < n :: InputId(task, i)
  }

  function OutputIds(task: Key, outputs: set<Ident>): set<OutputId> {
    set o | o in outputs :: OutputId(task, o)
  }

  /* ---------- the eager path ---------- */

  /** The asset of one new input, if it is known when its task is registered. */
  function Resolve(l: Links, row: InputRow, kinds: map<Ident, AssetKind>): Result<Option<AssetRef>, Error> {
    match row.source
    case Direct(key) =>
      if row.identifier in kinds then Ok(Some(AssetRef(kinds[row.identifier], key))) else Err(MissingKey)
    case FromParent(task, output) =>
      if OutputId(task, output) !in l.outputs then Err(DoesNotExist)
      else if AssetsOf(l, OutputId(task, output)) == [] then Ok(None)
      else if row.identifier !in kinds then Err(MissingKey)
      else Ok(Some(AssetRef(kinds[row.identifier], AssetsOf(l, OutputId(task, output))[0].key)))
    case Unbound => Ok(None)
  }

  /** Resolves the inputs in order and stops at the first exception. */
  function ResolveAll(l: Links, rows: seq<InputRow>,
                      kinds: map<Ident, AssetKind>): (r: Result<seq<Option<AssetRef>>, Error>)
    ensures r.Ok? <==> forall i :: 0 <= i < |rows| ==> Resolve(l, rows[i], kinds).Ok?
    ensures r.Ok? ==> |r.value| == |rows|
    ensures r.Ok? ==> forall i :: 0 <= i < |rows| ==> Resolve(l, rows[i], kinds) == Ok(r.value[i])
  {
    if rows == [] then Ok([])
    else
      var before := ResolveAll(l, rows[..|rows| - 1], kinds);
      var last := Resolve(l, rows[|rows| - 1], kinds);
      assert before.Ok? ==> forall i :: 0 <= i < |rows| - 1 ==> rows[i] == rows[..|rows| - 1][i];
      if before.Err? then
        assert !forall i :: 0 <= i < |rows| - 1 ==> Resolve(l, rows[i], kinds).Ok?;
        before
      else if last.Err? then Err(last.error)
      else Ok(before.value + [last.value])
  }

  function NewInputs(task: Key, rows: seq<InputRow>): map<InputId, InputRow> {
    map id | id in InputIds(task, |rows|) :: rows[id.position]
  }

  function NewAssets(task: Key, assets: seq<Option<AssetRef>>): map<InputId, AssetRef> {
    map id | id in InputIds(task, |assets|) && assets[id.position].Some? :: assets[id.position].value
  }

  /** The tables after input rows of a new task were inserted with their assets. */
  function WithInputs(l: Links, task: Key, rows: seq<InputRow>, assets: seq<Option<AssetRef>>): Links {
    l.(inputs := l.inputs + NewInputs(task, rows), inputAssets := l.inputAssets + NewAssets(task, assets))
  }

  function WithOutputs(l: Links, task: Key, channel: Channel, outputs: set<Ident>): Links {
    l.(outputs := l.outputs + (map id | id in OutputIds(task, outputs) :: channel))
  }

  /** Inserts the input and output rows of a new task. */
  function InsertTask(l: Links, task: Key, channel: Channel, rows: seq<InputRow>, outputs: set<Ident>,
                      kinds: map<Ident, AssetKind>): Result<Links, Error>
  {
    var assets := ResolveAll(l, rows, kinds);
    if assets.Err? then Err(assets.error)
    else Ok(WithOutputs(WithInputs(l, task, rows, assets.value), task, channel, outputs))
  }

  /* ---------- the lazy path ---------- */

  function InputsFrom(l: Links, out: OutputId): set<InputId> {
    set id | id in l.inputs && l.inputs[id].source == FromParent(out.task, out.identifier)
  }

  lemma SameAssetStep(ids: set<InputId>, id: InputId, asset: AssetRef)
    ensures SameAsset(ids + {id}, asset) == SameAsset(ids, asset)[id := asset]
  {
  }

  function SameAsset(ids: set<InputId>, asset: AssetRef): map<InputId, AssetRef> {
    map id | id in ids :: asset
  }

  /** Gives the asset to every input that names the output. The one-to-one constraint refuses an input
      that has an asset already. */
  function InsertOutputAsset(l: Links, channel: Channel, out: OutputId, asset: AssetRef): Result<Links, Error> {
    if out !in l.outputs || l.outputs[out] != channel then Err(DoesNotExist)
    else if InputsFrom(l, out) !! l.inputAssets.Keys then
      Ok(l.(outputAssets := l.outputAssets[out := AssetsOf(l, out) + [asset]],
            inputAssets := l.inputAssets + SameAsset(InputsFrom(l, out), asset)))
    else Err(IntegrityError)
  }

  /* ---------- the join ---------- */

  /** Input `id` has the asset its row asks for, and only then. */
  predicate Materialised(l: Links, id: InputId)
    requires id in l.inputs
  {
    match l.inputs[id].source
    case Direct(key) => id in l.inputAssets && l.inputAssets[id].key == key
    case FromParent(task, output) =>
      var out := OutputId(task, output);
      && out in l.outputs
      && (id in l.inputAssets <==> AssetsOf(l, out) != [])
      && (id in l.inputAssets ==> AssetsOf(l, out) != [] && l.inputAssets[id].key == AssetsOf(l, out)[0].key)
    case Unbound => id !in l.inputAssets
  }

  ghost predicate Joined(l: Links) {
    && l.inputAssets.Keys <= l.inputs.Keys
    && l.outputAssets.Keys <= l.outputs.Keys
    && (forall out :: out in l.outputAssets ==> |l.outputAssets[out]| == 1)
    && (forall id :: id in l.inputs ==> Materialised(l, id))
  }

  /** No row of the task exists yet. */
  ghost predicate Unregistered(l: Links, task: Key) {
    && (forall id :: id in l.inputs ==> id.task != task)
    && (forall out :: out in l.outputs ==> out.task != task)
  }

  lemma InsertTaskKeepsJoin(l: Links, task: Key, channel: Channel, rows: seq<InputRow>, outputs: set<Ident>,
                            kinds: map<Ident, AssetKind>)
    requires Joined(l) && Unregistered(l, task)
    requires InsertTask(l, task, channel, rows, outputs, kinds).Ok?
    ensures Joined(InsertTask(l, task, channel, rows, outputs, kinds).value)
  {
    var l' := InsertTask(l, task, channel, rows, outputs, kinds).value;
    forall id | id in l'.inputs ensures Materialised(l', id) {
      if id in InputIds(task, |rows|) {
        NewInputMaterialised(l, task, channel, rows, outputs, kinds, id.position);
      } else {
        OldInputMaterialised(l, task, channel, rows, outputs, kinds, id);
      }
    }
  }

  lemma NewInputMaterialised(l: Links, task: Key, channel: Channel, rows: seq<InputRow>, outputs: set<Ident>,
                             kinds: map<Ident, AssetKind>, i: nat)
    requires l.inputAssets.Keys <= l.inputs.Keys && Unregistered(l, task) && i < |rows|
    requires InsertTask(l, task, channel, rows, outputs, kinds).Ok?
    ensures var l' := InsertTask(l, task, channel, rows, outputs, kinds).value;
            InputId(task, i) in l'.inputs && Materialised(l', InputId(task, i))
  {
    AssetOfNewInput(l, task, channel, rows, outputs, kinds, i);
  }

  lemma OldInputMaterialised(l: Links, task: Key, channel: Channel, rows: seq<InputRow>, outputs: set<Ident>,
                             kinds: map<Ident, AssetKind>, id: InputId)
    requires id in l.inputs && Materialised(l, id) && id !in InputIds(task, |rows|)
    requires InsertTask(l, task, channel, rows, outputs, kinds).Ok?
    ensures var l' := InsertTask(l, task, channel, rows, outputs, kinds).value;
            id in l'.inputs && Materialised(l', id)
  {
  }

  /** The lazy path never meets an input that has an asset already, whatever order the events came in. */
  lemma InsertOutputAssetSucceeds(l: Links, channel: Channel, out: OutputId, asset: AssetRef)
    requires Joined(l)
    requires out in l.outputs && l.outputs[out] == channel
    ensures AssetsOf(l, out) == [] ==> InsertOutputAsset(l, channel, out, asset).Ok?
  {
  }

  lemma InsertOutputAssetKeepsJoin(l: Links, channel: Channel, out: OutputId, asset: AssetRef)
    requires Joined(l) && AssetsOf(l, out) == []
    requires InsertOutputAsset(l, channel, out, asset).Ok?
    ensures Joined(InsertOutputAsset(l, channel, out, asset).value)
  {
    var l' := InsertOutputAsset(l, channel, out, asset).value;
    forall id | id in l'.inputs ensures Materialised(l', id) {
      assert Materialised(l, id);
    }
    forall o | o in l'.outputAssets ensures |l'.outputAssets[o]| == 1 {
      if o == out {
        assert l'.outputAssets[o] == [asset];
      }
    }
  }

  /* ---------- the two paths commute ---------- */

  function AssetAt(l: Links, id: InputId): Option<AssetRef> {
    if id in l.inputAssets then Some(l.inputAssets[id]) else None
  }

  lemma SameInputAssets(a: Links, b: Links)
    requires forall id :: AssetAt(a, id) == AssetAt(b, id)
    ensures a.inputAssets == b.inputAssets
  {
    forall id: InputId
      ensures id in a.inputAssets <==> id in b.inputAssets
      ensures id in a.inputAssets ==> a.inputAssets[id] == b.inputAssets[id]
    {
      assert AssetAt(a, id) == AssetAt(b, id);
    }
  }

  lemma AssetOfNewInput(l: Links, task: Key, channel: Channel, rows: seq<InputRow>, outputs: set<Ident>,
                        kinds: map<Ident, AssetKind>, i: nat)
    requires l.inputAssets.Keys <= l.inputs.Keys && Unregistered(l, task)
    requires InsertTask(l, task, channel, rows, outputs, kinds).Ok? && i < |rows|
    ensures var l' := InsertTask(l, task, channel, rows, outputs, kinds).value;
            && InputId(task, i) in l'.inputs && l'.inputs[InputId(task, i)] == rows[i]
            && Resolve(l, rows[i], kinds) == Ok(AssetAt(l', InputId(task, i)))
  {
    var assets := ResolveAll(l, rows, kinds).value;
    assert InputId(task, i) in InputIds(task, |rows|);
    assert Resolve(l, rows[i], kinds) == Ok(assets[i]);
  }

  lemma AssetOfOldInput(l: Links, task: Key, channel: Channel, rows: seq<InputRow>, outputs: set<Ident>,
                        kinds: map<Ident, AssetKind>, id: InputId)
    requires InsertTask(l, task, channel, rows, outputs, kinds).Ok? && id !in InputIds(task, |rows|)
    ensures var l' := InsertTask(l, task, channel, rows, outputs, kinds).value;
            && (id in l'.inputs <==> id in l.inputs)
            && (id in l.inputs ==> l'.inputs[id] == l.inputs[id])
            && AssetAt(l', id) == AssetAt(l, id)
  {
  }

  lemma AssetAfterOutput(l: Links, channel: Channel, out: OutputId, asset: AssetRef, id: InputId)
    requires InsertOutputAsset(l, channel, out, asset).Ok?
    ensures var l' := InsertOutputAsset(l, channel, out, asset).value;
            && l'.inputs == l.inputs && l'.outputs == l.outputs
            && AssetAt(l', id) == if id in InputsFrom(l, out) then Some(asset) else AssetAt(l, id)
  {
  }

  /** What a task creation does to the inputs of other outputs does not depend on this output's asset. */
  lemma ResolveAfterOutput(l: Links, channel: Channel, out: OutputId, asset: AssetRef, row: InputRow,
                           kinds: map<Ident, AssetKind>)
    requires AssetsOf(l, out) == [] && InsertOutputAsset(l, channel, out, asset).Ok?
    requires Resolve(l, row, kinds).Ok?
    ensures var l' := InsertOutputAsset(l, channel, out, asset).value;
            if row.source != FromParent(out.task, out.identifier) then Resolve(l', row, kinds) == Resolve(l, row, kinds)
            else
              && Resolve(l, row, kinds) == Ok(None)
              && Resolve(l', row, kinds) == if row.identifier in kinds
                 then Ok(Some(AssetRef(kinds[row.identifier], asset.key))) else Err(MissingKey)
  {
  }

  /** The declared kind of every row that names the output is the kind of the output's asset. */
  predicate KindsAgree(rows: seq<InputRow>, kinds: map<Ident, AssetKind>, out: OutputId, asset: AssetRef) {
    forall i :: 0 <= i < |rows| && rows[i].source == FromParent(out.task, out.identifier) ==>
      rows[i].identifier in kinds && kinds[rows[i].identifier] == asset.kind
  }

  /** Creating a task and receiving an output asset of one of its parents: when the task can be created
      first, the asset can always be received before and after, and the two orders leave the same tables
      exactly when every new input that names the output declares the kind of the asset. */
  lemma PathsCommute(l: Links, task: Key, channel: Channel, rows: seq<InputRow>, outputs: set<Ident>,
                     kinds: map<Ident, AssetKind>, assetChannel: Channel, out: OutputId, asset: AssetRef)
    requires Joined(l) && Unregistered(l, task)
    requires out in l.outputs && l.outputs[out] == assetChannel && AssetsOf(l, out) == []
    requires InsertTask(l, task, channel, rows, outputs, kinds).Ok?
    ensures var created := InsertTask(l, task, channel, rows, outputs, kinds).value;
            var received := InsertOutputAsset(l, assetChannel, out, asset);
            && received.Ok?
            && var lazy := InsertOutputAsset(created, assetChannel, out, asset);
               var eager := InsertTask(received.value, task, channel, rows, outputs, kinds);
               && lazy.Ok?
               && (lazy == eager <==> KindsAgree(rows, kinds, out, asset))
  {
    hide ResolveAll, NewInputs, NewAssets, Materialised;
    InsertOutputAssetSucceeds(l, assetChannel, out, asset);
    InsertTaskKeepsJoin(l, task, channel, rows, outputs, kinds);
    var created := InsertTask(l, task, channel, rows, outputs, kinds).value;
    InsertOutputAssetSucceeds(created, assetChannel, out, asset);
    var received := InsertOutputAsset(l, assetChannel, out, asset).value;
    var lazy := InsertOutputAsset(created, assetChannel, out, asset).value;
    forall i | 0 <= i < |rows|
      ensures AssetAt(lazy, InputId(task, i)) ==
              if rows[i].source == FromParent(out.task, out.identifier) then Some(asset)
              else Resolve(l, rows[i], kinds).value
    {
      AssetOfNewInput(l, task, channel, rows, outputs, kinds, i);
      AssetAfterOutput(created, assetChannel, out, asset, InputId(task, i));
    }
    forall i | 0 <= i < |rows|
      ensures rows[i].source != FromParent(out.task, out.identifier) ==>
                Resolve(received, rows[i], kinds) == Resolve(l, rows[i], kinds)
      ensures rows[i].source == FromParent(out.task, out.identifier) ==>
                Resolve(received, rows[i], kinds) ==
                if rows[i].identifier in kinds then Ok(Some(AssetRef(kinds[rows[i].identifier], asset.key)))
                else Err(MissingKey)
    {
      assert Resolve(l, rows[i], kinds).Ok?;
      ResolveAfterOutput(l, assetChannel, out, asset, rows[i], kinds);
    }
    var eager := InsertTask(received, task, channel, rows, outputs, kinds);
    if eager.Ok? {
      forall i | 0 <= i < |rows|
        ensures Resolve(received, rows[i], kinds) == Ok(AssetAt(eager.value, InputId(task, i)))
      {
        AssetOfNewInput(received, task, channel, rows, outputs, kinds, i);
      }
      forall id | id !in InputIds(task, |rows|) ensures AssetAt(lazy, id) == AssetAt(eager.value, id) {
        OldInputsAgree(l, task, channel, rows, outputs, kinds, assetChannel, out, asset, id);
      }
      OtherTablesAgree(l, task, channel, rows, outputs, kinds, assetChannel, out, asset);
      AgreeIffKindsAgree(task, rows, kinds, out, asset, lazy, eager.value);
    }
  }

  lemma OtherTablesAgree(l: Links, task: Key, channel: Channel, rows: seq<InputRow>, outputs: set<Ident>,
                         kinds: map<Ident, AssetKind>, assetChannel: Channel, out: OutputId, asset: AssetRef)
    requires Unregistered(l, task) && out in l.outputs
    requires var created := InsertTask(l, task, channel, rows, outputs, kinds);
             created.Ok? && InsertOutputAsset(created.value, assetChannel, out, asset).Ok?
    requires var received := InsertOutputAsset(l, assetChannel, out, asset);
             received.Ok? && InsertTask(received.value, task, channel, rows, outputs, kinds).Ok?
    ensures var created := InsertTask(l, task, channel, rows, outputs, kinds).value;
            var lazy := InsertOutputAsset(created, assetChannel, out, asset).value;
            var received := InsertOutputAsset(l, assetChannel, out, asset).value;
            var eager := InsertTask(received, task, channel, rows, outputs, kinds).value;
            lazy.inputs == eager.inputs && lazy.outputs == eager.outputs && lazy.outputAssets == eager.outputAssets
  {
  }

  lemma OldInputsAgree(l: Links, task: Key, channel: Channel, rows: seq<InputRow>, outputs: set<Ident>,
                       kinds: map<Ident, AssetKind>, assetChannel: Channel, out: OutputId, asset: AssetRef, id: InputId)
    requires id !in InputIds(task, |rows|)
    requires var created := InsertTask(l, task, channel, rows, outputs, kinds);
             created.Ok? && InsertOutputAsset(created.value, assetChannel, out, asset).Ok?
    requires var received := InsertOutputAsset(l, assetChannel, out, asset);
             received.Ok? && InsertTask(received.value, task, channel, rows, outputs, kinds).Ok?
    ensures var created := InsertTask(l, task, channel, rows, outputs, kinds).value;
            var lazy := InsertOutputAsset(created, assetChannel, out, asset).value;
            var received := InsertOutputAsset(l, assetChannel, out, asset).value;
            var eager := InsertTask(received, task, channel, rows, outputs, kinds).value;
            AssetAt(lazy, id) == AssetAt(eager, id)
  {
    var created := InsertTask(l, task, channel, rows, outputs, kinds).value;
    var received := InsertOutputAsset(l, assetChannel, out, asset).value;
    AssetOfOldInput(l, task, channel, rows, outputs, kinds, id);
    AssetAfterOutput(created, assetChannel, out, asset, id);
    AssetAfterOutput(l, assetChannel, out, asset, id);
    AssetOfOldInput(received, task, channel, rows, outputs, kinds, id);
  }

  /** Two tables that differ at most on the new inputs that name the output. */
  lemma AgreeIffKindsAgree(task: Key, rows: seq<InputRow>, kinds: map<Ident, AssetKind>, out: OutputId, asset: AssetRef,
                           lazy: Links, eager: Links)
    requires lazy.inputs == eager.inputs && lazy.outputs == eager.outputs && lazy.outputAssets == eager.outputAssets
    requires forall id :: id !in InputIds(task, |rows|) ==> AssetAt(lazy, id) == AssetAt(eager, id)
    requires forall i :: 0 <= i < |rows| ==>
               if rows[i].source == FromParent(out.task, out.identifier) then
                 && rows[i].identifier in kinds
                 && AssetAt(lazy, InputId(task, i)) == Some(asset)
                 && AssetAt(eager, InputId(task, i)) == Some(AssetRef(kinds[rows[i].identifier], asset.key))
               else AssetAt(lazy, InputId(task, i)) == AssetAt(eager, InputId(task, i))
    ensures lazy == eager <==> KindsAgree(rows, kinds, out, asset)
  {
    if KindsAgree(rows, kinds, out, asset) {
      forall id: InputId ensures AssetAt(lazy, id) == AssetAt(eager, id) {
        if id in InputIds(task, |rows|) {
          assert id == InputId(task, id.position);
        }
      }
      SameInputAssets(lazy, eager);
    } else {
      var i :| 0 <= i < |rows| && rows[i].source == FromParent(out.task, out.identifier)
               && !(rows[i].identifier in kinds && kinds[rows[i].identifier] == asset.kind);
      assert AssetAt(lazy, InputId(task, i)) != AssetAt(eager, InputId(task, i));
    }
  }
}
