/** What the downloads of backend/substrapp/clients/organization.py leave in the buffer, for a content that comes
    in chunks of any size. */
module ChunkedDownloads {
  import opened Common
  import opened AssetBuffer

  /** The content cut every `n` characters. */
  function Chunks(content: Content, n: nat): (chunks: seq<Content>)
    requires n > 0
    decreases |content|
  {
    if content == "" then []
    else if |content| <= n then [content]
    else [content[..n]] + Chunks(content[n..], n)
  }

  lemma {:induction false} ConcatHead(chunk: Content, chunks: seq<Content>)
    ensures Concat([chunk] + chunks) == chunk + Concat(chunks)
    decreases |chunks|
  {
    if chunks == [] {
      assert [chunk] + chunks == [chunk] && [chunk][..0] == [];
    } else {
      var m := |chunks| - 1;
      assert ([chunk] + chunks)[..m + 1] == [chunk] + chunks[..m];
      ConcatHead(chunk, chunks[..m]);
    }
  }

  /** What was written after `j` chunks is the content up to there. */
  lemma {:induction false} ChunksJoin(content: Content, n: nat, j: nat)
    requires n > 0 && j <= |Chunks(content, n)|
    ensures Concat(Chunks(content, n)[..j]) == if j * n <= |content| then content[..j * n] else content
    ensures j == |Chunks(content, n)| ==> Concat(Chunks(content, n)[..j]) == content
    decreases |content|
  {
    var chunks := Chunks(content, n);
    if j > 0 {
      if |content| <= n {
        assert chunks[..j] == [content] && [content][..0] == [];
      } else {
        var rest := content[n..];
        assert chunks[..j] == [content[..n]] + Chunks(rest, n)[..j - 1];
        ConcatHead(content[..n], Chunks(rest, n)[..j - 1]);
        ChunksJoin(rest, n, j - 1);
        assert (j - 1) * n == j * n - n;
        assert content == content[..n] + rest;
      }
    }
  }

  /** What of the content had come after `j` chunks. */
  function Received(content: Content, n: nat, j: nat): Content {
    if j * n <= |content| then content[..j * n] else content
  }

  /** The download itself, cut after `j` chunks or not: it returns normally exactly when it is not cut and what
      came has the registered checksum under the model's salt. What came is left as a file unless the
      checksum is wrong. */
  lemma DownloadExactly(hash: string -> string, models: Files, m: Model, content: Content, n: nat, j: nat, cut: bool)
    requires n > 0 && j <= |Chunks(content, n)|
    ensures var came, answer := Received(content, n, j), Stream(Chunks(content, n)[..j], cut);
            var right := hash(came + m.taskKey) == m.checksum;
            && (Good(hash, m, answer) <==> !cut && right)
            && Downloaded(hash, models, m, answer) == if cut || right then models[m.key := came] else models
  {
    ChunksJoin(content, n, j);
  }

  /** A whole content, whatever the size of its chunks: the process succeeds exactly when the checksum is that of
      the content followed by the salt, and then the buffer holds the content; otherwise, and whenever the
      stream is cut, it is as before. */
  lemma ProcessExactly(hash: string -> string, models: Files, m: Model, content: Content, n: nat)
    requires n > 0 && m.key !in models
    ensures var whole := Answered(Stream(Chunks(content, n), false));
            var right := hash(content + m.taskKey) == m.checksum;
            && (Succeeds(hash, models, m, whole) <==> right)
            && AddOne(hash, models, m, whole) == if right then models[m.key := content] else models
    ensures forall j :: 0 <= j <= |Chunks(content, n)| ==>
              var cut := Answered(Stream(Chunks(content, n)[..j], true));
              !Succeeds(hash, models, m, cut) && AddOne(hash, models, m, cut) == models
  {
    ChunksJoin(content, n, |Chunks(content, n)|);
    assert Chunks(content, n)[..|Chunks(content, n)|] == Chunks(content, n);
  }

  /* ---------- a batch ---------- */

  /** Every process is sent a whole content, in chunks of size `n`. */
  predicate AllWhole(outcomes: seq<Outcome>, contents: seq<Content>, n: nat)
    requires n > 0
  {
    && |outcomes| == |contents|
    && forall i :: 0 <= i < |contents| ==> outcomes[i] == Answered(Stream(Chunks(contents[i], n), false))
  }

  /** The `l`-th process is the first one for a model that was missing. */
  predicate Fetches(models: Files, requested: seq<Model>, order: seq<nat>, l: nat)
    requires l < |order| && forall k :: 0 <= k < |order| ==> order[k] < |requested|
  {
    First(requested, order, l) && requested[order[l]].key !in models
  }

  lemma {:induction false} AddAllExtends(hash: string -> string, models: Files, requested: seq<Model>,
                                         outcomes: seq<Outcome>, order: seq<nat>, l: nat, key: Key)
    requires InBounds(order, requested, outcomes) && l <= |order|
    requires key in AddAll(hash, models, requested, outcomes, order[..l])
    ensures key in AddAll(hash, models, requested, outcomes, order)
    ensures AddAll(hash, models, requested, outcomes, order)[key]
         == AddAll(hash, models, requested, outcomes, order[..l])[key]
    decreases |order|
  {
    hide Good;
    if l == |order| {
      assert order[..l] == order;
    } else {
      var before := order[..|order| - 1];
      assert before[..l] == order[..l];
      AddAllExtends(hash, models, requested, outcomes, before, l, key);
    }
  }

  lemma FetchedModel(hash: string -> string, models: Files, requested: seq<Model>, outcomes: seq<Outcome>,
                     order: seq<nat>, contents: seq<Content>, n: nat, l: nat)
    requires InBounds(order, requested, outcomes) && n > 0 && AllWhole(outcomes, contents, n)
    requires l < |order| && Fetches(models, requested, order, l)
    requires AllExitWell(hash, models, requested, outcomes, order)
    ensures var key, after := requested[order[l]].key, AddAll(hash, models, requested, outcomes, order);
            key in after && after[key] == contents[order[l]]
  {
    hide AddOne, Succeeds, Good, Chunks;
    var m, before := requested[order[l]], AddAll(hash, models, requested, outcomes, order[..l]);
    NotAsked(hash, models, requested, outcomes, order[..l], m.key);
    ProcessExactly(hash, before, m, contents[order[l]], n);
    assert ExitsWell(hash, models, requested, outcomes, order, l);
    assert order[..l + 1][..l] == order[..l];
    AddAllExtends(hash, models, requested, outcomes, order, l + 1, m.key);
  }

  /** A batch of whole contents returns normally exactly when every model fetched has the checksum of its content
      followed by its salt, and then the buffer holds the contents. */
  lemma WholeBatchExactly(hash: string -> string, models: Files, requested: seq<Model>, outcomes: seq<Outcome>,
                          order: seq<nat>, contents: seq<Content>, n: nat)
    requires InBounds(order, requested, outcomes) && n > 0 && AllWhole(outcomes, contents, n)
    ensures AllExitWell(hash, models, requested, outcomes, order) <==>
            forall l :: 0 <= l < |order| && Fetches(models, requested, order, l) ==>
              hash(contents[order[l]] + requested[order[l]].taskKey) == requested[order[l]].checksum
    ensures AllExitWell(hash, models, requested, outcomes, order) ==>
              var after := Batch(hash, models, requested, outcomes, order);
              && (forall l :: 0 <= l < |order| && Fetches(models, requested, order, l) ==>
                    requested[order[l]].key in after && after[requested[order[l]].key] == contents[order[l]])
              && (forall k :: k in models ==> k in after && after[k] == models[k])
  {
    hide Good, Chunks, AddAll, ExitsWell, First;
    BatchSucceedsExactly(hash, models, requested, outcomes, order);
    forall l | 0 <= l < |order|
      ensures GoodEnough(hash, models, requested, outcomes, order, l) <==>
              (Fetches(models, requested, order, l) ==>
                 hash(contents[order[l]] + requested[order[l]].taskKey) == requested[order[l]].checksum)
    {
      ProcessExactly(hash, map[], requested[order[l]], contents[order[l]], n);
    }
    if AllExitWell(hash, models, requested, outcomes, order) {
      AddAllKeys(hash, models, requested, outcomes, order);
      forall l | 0 <= l < |order| && Fetches(models, requested, order, l)
        ensures requested[order[l]].key in AddAll(hash, models, requested, outcomes, order)
        ensures AddAll(hash, models, requested, outcomes, order)[requested[order[l]].key] == contents[order[l]]
      {
        FetchedModel(hash, models, requested, outcomes, order, contents, n, l);
      }
    }
  }
}
