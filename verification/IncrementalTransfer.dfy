/** Two payloads of one source replayed one after the other, the second one packed without what the first one
    brought: the use the list of already-transferred images is meant for. */
module IncrementalTransfer {
  import opened Common
  import opened ImageNames
  import opened Encoder
  import opened Decoder
  import opened Replay
  import opened RoundTrip

  lemma {:induction false} NoneLeftOut(images: seq<string>)
    ensures NotTransferredYet(images, []) == images
    decreases |images|
  {
    if images != [] {
      NoneLeftOut(images[..|images| - 1]);
    }
  }

  /** A payload that leaves nothing out can be replayed anywhere. */
  lemma FullPayloadReplays(source: Registry, names: seq<string>, dest: Registry, strict: bool,
                           repository: Option<string>)
    requires Encode(source, names, []).Ok?
    ensures Transferred(source, names, [], dest, strict, repository)
  {
    hide Encode, LoadZipImages, MountsFound, Keys;
    ReplayExactly(source, names, [], dest, strict, repository);
    TransferredSuffices(source, names, [], dest);
  }

  lemma FirstImageThere(source: Registry, first: seq<string>, dest: Registry, strict: bool, repository: Option<string>,
                        name: string)
    requires Encode(source, first, []).Ok? && name in first
    ensures HasColon(name)
    ensures var after := Replayed(source, first, [], dest, strict, repository);
            Target(name, repository) in after.manifests && after.manifests[Target(name, repository)].Single?
  {
    hide Encode, LoadZipImages, Keys, GetManifests, GetRepoAndTag, HasColon, Needs, HasBlobs, MountsFound, Target,
      Replayed, Transferred, Fetched, TargetNames, PutManifests;
    FullPayloadReplays(source, first, dest, strict, repository);
    RoundTrip.RoundTrip(source, first, [], dest, strict, repository);
    NoneLeftOut(Keys(first));
    assert name in Keys(first);
    var j :| 0 <= j < |Keys(first)| && Keys(first)[j] == name;
    assert Pending(first, [])[j] == name;
  }

  /** The images of the first payload pass their check in the second one, under the same override. */
  lemma FirstImagesPass(source: Registry, first: seq<string>, names: seq<string>, dest: Registry, strict: bool,
                        strict': bool, repository: Option<string>)
    requires Encode(source, first, []).Ok? && AllNamed(names)
    ensures SkipsPass(Replayed(source, first, [], dest, strict, repository), names, first, strict', repository)
  {
    hide Encode, Replayed, GetRepoAndTag;
    var after := Replayed(source, first, [], dest, strict, repository);
    forall i | 0 <= i < |names| && names[i] in first ensures SkipPasses(after, names, first, strict', repository, i) {
      FirstImageThere(source, first, dest, strict, repository, names[i]);
      ColonStays(names[i], repository);
    }
  }

  /** After the first payload, the second one is replayed normally exactly when every digest to mount is, in the
      destination the first one left, where the descriptor locates it; otherwise a mount raises. */
  lemma IncrementalExactly(source: Registry, first: seq<string>, second: seq<string>, dest: Registry, strict: bool,
                           strict': bool, repository: Option<string>)
    requires Encode(source, first, []).Ok? && Encode(source, second, first).Ok?
    ensures Transferred(source, first, [], dest, strict, repository)
    ensures var middle := Replayed(source, first, [], dest, strict, repository);
            var p := LoadZipImages(middle, Encode(source, second, first).value, strict', repository);
            && (p.error.None? <==> MountsFound(source, second, first, middle.blobs))
            && (p.error.Some? ==> p.error == Some(MountFailed))
  {
    hide Encode, LoadZipImages, MountsFound, Keys, SkipsPass, Replayed;
    FullPayloadReplays(source, first, dest, strict, repository);
    var middle := Replayed(source, first, [], dest, strict, repository);
    Unpacked(source, second, first);
    FirstImagesPass(source, first, Keys(second), dest, strict, strict', repository);
    ReplayExactly(source, second, first, middle, strict', repository);
  }

  /* ---------- what the first payload brings ---------- */

  /** Every image of the first payload is read from the archive with its own manifest. */
  predicate ReadAsPacked(source: Registry, first: seq<string>)
    requires Encode(source, first, []).Ok?
  {
    var pending := Pending(first, []);
    ClashesAgree(source, pending, Paths(pending))
  }

  lemma PutAsFetched(source: Registry, first: seq<string>, a: string, i: nat)
    requires Encode(source, first, []).Ok? && ReadAsPacked(source, first) && i < |first| && first[i] == a
    ensures GetManifests(source, Pending(first, [])).Ok? && GetManifest(source, a).Ok?
    ensures exists k :: 0 <= k < |Pending(first, [])| && Pending(first, [])[k] == a
                     && PutManifests(source, Pending(first, []))[k] == GetManifest(source, a).value
  {
    hide Encode, Keys, GetManifest, NotTransferredYet, AllNamed, NormalizeName, ClashesAgree;
    Unpacked(source, first, []);
    NoneLeftOut(Keys(first));
    var pending := Pending(first, []);
    LastsAgree(source, pending, Paths(pending));
    assert a in first && a in pending;
    var k :| 0 <= k < |pending| && pending[k] == a;
    assert AgreesWithLast(source, pending, Paths(pending), k);
    assert GetManifest(source, pending[k]) == Ok(Fetched(source, pending, k));
    assert PutManifests(source, pending)[k] == Fetched(source, pending, k);
  }

  lemma MiddleBlobs(source: Registry, first: seq<string>, dest: Registry, strict: bool, repository: Option<string>,
                    b: Blob)
    requires Encode(source, first, []).Ok?
    ensures GetManifests(source, Pending(first, [])).Ok? && AllNamed(Pending(first, []))
    ensures b in Replayed(source, first, [], dest, strict, repository).blobs <==>
            || b in dest.blobs
            || Needs(Targets(Pending(first, []), repository), PutManifests(source, Pending(first, [])), b)
  {
    hide Encode, LoadZipImages, GetManifests, Keys, HasBlobs, Needs, MountsFound, Pending, PutManifests, Replayed,
      Target, HasColon, AllNamed, TargetNames;
    FullPayloadReplays(source, first, dest, strict, repository);
    RoundTrip.RoundTrip(source, first, [], dest, strict, repository);
  }

  /** The first payload brings every blob of its images to the repositories of their targets. */
  lemma BroughtByFirst(source: Registry, first: seq<string>, dest: Registry, strict: bool, repository: Option<string>,
                       i: nat, d: Digest)
    requires Encode(source, first, []).Ok? && ReadAsPacked(source, first) && i < |first|
    requires GetManifest(source, first[i]).Ok? && d in GetListOfBlobs(GetManifest(source, first[i]).value)
    ensures HasColon(first[i])
    ensures Blob(Target(first[i], repository).repository, d)
        in Replayed(source, first, [], dest, strict, repository).blobs
  {
    hide Encode, GetListOfBlobs, GetManifests, LoadZipImages, Pending, ReadAsPacked, PutManifests, GetRepoAndTag,
      Replayed;
    PutAsFetched(source, first, first[i], i);
    var pending, b := Pending(first, []), Blob(Target(first[i], repository).repository, d);
    MiddleBlobs(source, first, dest, strict, repository, b);
    var j :| 0 <= j < |pending| && pending[j] == first[i]
             && PutManifests(source, pending)[j] == GetManifest(source, first[i]).value;
    assert Targets(pending, repository)[j] == Target(first[i], repository);
  }

  /** A digest the second payload is to mount belongs to an image of the first one, in whose repository it is
      located, and is in the repository of that image's target. */
  lemma MountSources(source: Registry, first: seq<string>, second: seq<string>, dest: Registry, strict: bool,
                     repository: Option<string>, k: nat, d: Digest)
    requires Encode(source, first, []).Ok? && ReadAsPacked(source, first) && Encode(source, second, first).Ok?
    requires GetManifests(source, Pending(second, first)).Ok? && k < |Pending(second, first)|
    requires d in GetListOfBlobs(PutManifests(source, Pending(second, first))[k])
    ensures var location := FinalDescriptor(source, second, first).blobsPaths;
            var middle := Replayed(source, first, [], dest, strict, repository);
            d in location && (location[d].InRegistry? ==>
              exists a :: a in first && HasColon(a) && location[d].repository == GetRepoAndTag(a).value.repository
                       && Blob(Target(a, repository).repository, d) in middle.blobs)
  {
    hide Encode, GetManifest, GetListOfBlobs, GetManifests, ReadAsPacked, PutManifests, FinalDescriptor, GetRepoAndTag,
      Target, Replayed, Pending;
    DigestLocated(source, second, first, k, d);
    FetchedAll(source, first);
    var location := FinalDescriptor(source, second, first).blobsPaths;
    if location[d].InRegistry? {
      var there := GetManifests(source, first).value;
      var i :| 0 <= i < |there| && FirstListing(there, Blob(location[d].repository, d), i);
      BroughtByFirst(source, first, dest, strict, repository, i, d);
      assert first[i] in first;
    }
  }

  lemma FetchedAll(source: Registry, names: seq<string>)
    ensures GetManifests(source, names).Ok? ==> AllFetched(source, names, GetManifests(source, names).value)
  {
  }

  /** Without the override the second payload is always replayed normally. */
  lemma WithoutOverride(source: Registry, first: seq<string>, second: seq<string>, dest: Registry, strict: bool,
                        strict': bool)
    requires Encode(source, first, []).Ok? && ReadAsPacked(source, first) && Encode(source, second, first).Ok?
    ensures var middle := Replayed(source, first, [], dest, strict, None);
            Transferred(source, second, first, middle, strict', None)
  {
    hide Encode, LoadZipImages, GetManifests, FinalDescriptor, PutManifests, GetListOfBlobs, Replayed, ReadAsPacked,
      Pending, GetRepoAndTag, HasColon;
    var middle := Replayed(source, first, [], dest, strict, None);
    IncrementalExactly(source, first, second, dest, strict, strict', None);
    Unpacked(source, second, first);
    var pending, paths := Pending(second, first), FinalDescriptor(source, second, first).blobsPaths;
    forall k, d | 0 <= k < |pending| && d in GetListOfBlobs(PutManifests(source, pending)[k])
      ensures Found(middle.blobs, paths, d)
    {
      MountSources(source, first, second, dest, strict, None, k, d);
    }
  }

  /* ---------- under the override ---------- */

  /** The repository that names built with the override have. */
  function OverrideRepository(repository: string): string {
    if HasColon(repository) then GetRepoAndTag(repository).value.repository else repository
  }

  lemma {:induction false} FirstColon(a: string, b: string)
    requires HasColon(a)
    ensures GetRepoAndTag(a + b).Some? && GetRepoAndTag(a + b).value.repository == GetRepoAndTag(a).value.repository
  {
    assert (a + b)[0] == a[0];
    if a[0] != ':' {
      assert (a + b)[1..] == a[1..] + b;
      assert HasColon(a[1..]);
      FirstColon(a[1..], b);
    }
  }

  lemma TargetRepository(name: string, repository: string)
    requires HasColon(name)
    ensures Target(name, Some(repository)).repository == OverrideRepository(repository)
  {
    var tag := GetRepoAndTag(name).value.tag;
    ColonStays(name, Some(repository));
    if HasColon(repository) {
      assert repository + ":" + tag == repository + (":" + tag);
      FirstColon(repository, ":" + tag);
    } else {
      RepoAndTagOf(repository, tag);
    }
  }

  /** The digest is to be mounted from the repository of the override, or from where the destination had it
      before the first payload. */
  predicate MountedFromOverride(source: Registry, first: seq<string>, second: seq<string>, dest: Registry,
                                repository: string, d: Digest)
    requires Encode(source, second, first).Ok?
  {
    var paths := FinalDescriptor(source, second, first).blobsPaths;
    d in paths && (paths[d].InRegistry? ==>
      paths[d].repository == OverrideRepository(repository) || Blob(paths[d].repository, d) in dest.blobs)
  }

  /** What the first payload adds under the override is all in the repository of the override. */
  lemma AddedUnderOverride(source: Registry, first: seq<string>, dest: Registry, strict: bool, repository: string,
                           b: Blob)
    requires Encode(source, first, []).Ok?
    ensures b in Replayed(source, first, [], dest, strict, Some(repository)).blobs ==>
              b in dest.blobs || b.repository == OverrideRepository(repository)
    ensures b in dest.blobs ==> b in Replayed(source, first, [], dest, strict, Some(repository)).blobs
  {
    hide Encode, Replayed, PutManifests, OverrideRepository, Target, GetListOfBlobs, Pending, GetManifests;
    MiddleBlobs(source, first, dest, strict, Some(repository), b);
    var pending := Pending(first, []);
    forall j | 0 <= j < |pending|
        ensures Target(pending[j], Some(repository)).repository == OverrideRepository(repository) {
      TargetRepository(pending[j], repository);
    }
  }

  lemma FoundUnderOverride(source: Registry, first: seq<string>, second: seq<string>, dest: Registry, strict: bool,
                           repository: string, k: nat, d: Digest)
    requires Encode(source, first, []).Ok? && ReadAsPacked(source, first) && Encode(source, second, first).Ok?
    requires GetManifests(source, Pending(second, first)).Ok? && k < |Pending(second, first)|
    requires d in GetListOfBlobs(PutManifests(source, Pending(second, first))[k])
    ensures Found(Replayed(source, first, [], dest, strict, Some(repository)).blobs,
                  FinalDescriptor(source, second, first).blobsPaths, d)
            <==> MountedFromOverride(source, first, second, dest, repository, d)
  {
    hide Encode, GetManifests, FinalDescriptor, PutManifests, GetListOfBlobs, Replayed, ReadAsPacked, GetRepoAndTag,
      OverrideRepository, Target, HasColon, Pending;
    MountSources(source, first, second, dest, strict, Some(repository), k, d);
    var paths := FinalDescriptor(source, second, first).blobsPaths;
    if paths[d].InRegistry? {
      var middle := Replayed(source, first, [], dest, strict, Some(repository));
      var a :| a in first && HasColon(a) && Blob(Target(a, Some(repository)).repository, d) in middle.blobs;
      TargetRepository(a, repository);
      AddedUnderOverride(source, first, dest, strict, repository, Blob(paths[d].repository, d));
    }
  }

  /** Under the override it is replayed normally exactly when no digest of a new image is to be mounted from a
      repository other than that of the override, unless the destination had it there already: digests are
      located by the repositories of the source. */
  lemma UnderOverride(source: Registry, first: seq<string>, second: seq<string>, dest: Registry, strict: bool,
                      strict': bool, repository: string)
    requires Encode(source, first, []).Ok? && ReadAsPacked(source, first) && Encode(source, second, first).Ok?
    ensures GetManifests(source, Pending(second, first)).Ok?
    ensures var middle, pending := Replayed(source, first, [], dest, strict, Some(repository)), Pending(second, first);
            Transferred(source, second, first, middle, strict', Some(repository)) <==>
            forall k, d :: 0 <= k < |pending| && d in GetListOfBlobs(PutManifests(source, pending)[k]) ==>
              MountedFromOverride(source, first, second, dest, repository, d)
  {
    hide Encode, LoadZipImages, GetManifests, FinalDescriptor, PutManifests, GetListOfBlobs, Replayed, ReadAsPacked,
      Pending, MountedFromOverride, Found;
    IncrementalExactly(source, first, second, dest, strict, strict', Some(repository));
    Unpacked(source, second, first);
    var middle, pending := Replayed(source, first, [], dest, strict, Some(repository)), Pending(second, first);
    forall k, d | 0 <= k < |pending| && d in GetListOfBlobs(PutManifests(source, pending)[k])
      ensures Found(middle.blobs, FinalDescriptor(source, second, first).blobsPaths, d) <==>
              MountedFromOverride(source, first, second, dest, repository, d)
    {
      FoundUnderOverride(source, first, second, dest, strict, repository, k, d);
    }
  }

  /* ---------- mounts that fail ---------- */

  lemma OneKey(name: string, already: seq<string>)
    ensures Keys([name]) == [name]
    ensures NotTransferredYet([name], already) == if name in already then [] else [name]
  {
    var names := [name];
    assert names[..|names| - 1] == [];
  }

  lemma OnlyPending(a: string, b: string)
    requires a != b
    ensures Pending([b], [a]) == [b] && Pending([a], []) == [a]
    ensures Keys([a, b]) == [a, b] && Pending([a, b], [a]) == [b]
  {
    OneKey(a, []);
    OneKey(a, [a]);
    OneKey(b, [a]);
    var names := [a, b];
    assert names[..|names| - 1] == [a];
  }

  /** A digest that two images share is to be mounted from the repository of the one left out. */
  lemma SharedIsMounted(source: Registry, names: seq<string>, a: string, k: nat, d: Digest)
    requires Encode(source, names, [a]).Ok? && GetManifests(source, Pending(names, [a])).Ok?
    requires k < |Pending(names, [a])| && d in GetListOfBlobs(PutManifests(source, Pending(names, [a]))[k])
    requires GetManifest(source, a).Ok? && d in GetListOfBlobs(GetManifest(source, a).value)
    ensures var paths := FinalDescriptor(source, names, [a]).blobsPaths;
            HasColon(a) && d in paths && paths[d] == InRegistry(GetRepoAndTag(a).value.repository)
  {
    hide Encode, GetListOfBlobs, GetManifests, FinalDescriptor, PutManifests, Pending, GetRepoAndTag;
    DigestLocated(source, names, [a], k, d);
    FetchedAll(source, [a]);
    var there := GetManifests(source, [a]).value;
    assert there[0].name == a && GetManifest(source, [a][0]) == Ok(there[0].manifest);
  }

  lemma ReadAlone(source: Registry, name: string, already: seq<string>)
    requires Pending([name], already) == [name] && GetManifests(source, [name]).Ok?
    ensures PutManifests(source, [name]) == [GetManifest(source, name).value]
  {
    FetchedAll(source, [name]);
    assert GetManifest(source, [name][0]) == Ok(Fetched(source, [name], 0));
  }

  /** A digest located where the destination does not have it makes the replay raise. */
  lemma MountMissing(source: Registry, names: seq<string>, already: seq<string>, dest: Registry, strict: bool,
                     repository: Option<string>, k: nat, b: Blob)
    requires Encode(source, names, already).Ok? && GetManifests(source, Pending(names, already)).Ok?
    requires AllNamed(Keys(names)) && SkipsPass(dest, Keys(names), already, strict, repository)
    requires k < |Pending(names, already)|
        && b.digest in GetListOfBlobs(PutManifests(source, Pending(names, already))[k])
    requires var paths := FinalDescriptor(source, names, already).blobsPaths;
             b.digest in paths && paths[b.digest] == InRegistry(b.repository)
    requires b !in dest.blobs
    ensures LoadZipImages(dest, Encode(source, names, already).value, strict, repository).error == Some(MountFailed)
  {
    hide Encode, LoadZipImages, GetManifests, FinalDescriptor, GetListOfBlobs, PutManifests, Pending, Keys, SkipsPass;
    ReplayExactly(source, names, already, dest, strict, repository);
    assert !Found(dest.blobs, FinalDescriptor(source, names, already).blobsPaths, b.digest);
    assert !AllFound(dest.blobs, FinalDescriptor(source, names, already).blobsPaths,
                     PutManifests(source, Pending(names, already))[k]);
  }

  /** Any two images that share a digest, transferred one after the other under an override with a repository
      other than the first image's own: the second transfer raises, unless the destination had the digest in
      that image's own repository before. */
  lemma SharedDigestUnderOverride(source: Registry, a: string, b: string, d: Digest, dest: Registry, strict: bool,
                                  strict': bool, repository: string)
    requires a != b && Encode(source, [a], []).Ok? && Encode(source, [b], [a]).Ok?
    requires GetManifest(source, a).Ok? && d in GetListOfBlobs(GetManifest(source, a).value)
    requires GetManifest(source, b).Ok? && d in GetListOfBlobs(GetManifest(source, b).value)
    requires HasColon(a) && GetRepoAndTag(a).value.repository != OverrideRepository(repository)
    requires Blob(GetRepoAndTag(a).value.repository, d) !in dest.blobs
    ensures var middle := Replayed(source, [a], [], dest, strict, Some(repository));
            LoadZipImages(middle, Encode(source, [b], [a]).value, strict', Some(repository)).error == Some(MountFailed)
  {
    hide Encode, LoadZipImages, GetManifests, FinalDescriptor, GetListOfBlobs, GetManifest, Replayed,
      OverrideRepository, GetRepoAndTag, HasColon, PutManifests, Pending, Keys, SkipsPass, AllNamed;
    var middle, missing := Replayed(source, [a], [], dest, strict, Some(repository)),
        Blob(GetRepoAndTag(a).value.repository, d);
    OnlyPending(a, b);
    Unpacked(source, [b], [a]);
    ReadAlone(source, b, [a]);
    assert d in GetListOfBlobs(PutManifests(source, [b])[0]);
    SharedIsMounted(source, [b], a, 0, d);
    FirstImagesPass(source, [a], Keys([b]), dest, strict, strict', Some(repository));
    AddedUnderOverride(source, [a], dest, strict, repository, missing);
    MountMissing(source, [b], [a], middle, strict', Some(repository), 0, missing);
  }

  lemma AbsentSkips(a: string, b: string, dest: Registry)
    requires a != b && HasColon(a) && GetRepoAndTag(a).value !in dest.manifests && AllNamed([a, b])
    ensures SkipsPass(dest, [a, b], [a], false, None)
  {
    hide GetRepoAndTag, HasColon;
    forall i | 0 <= i < 2 && [a, b][i] in [a] ensures SkipPasses(dest, [a, b], [a], false, None, i) {
      assert [a, b][i] == a;
    }
  }

  /** An image left out that is not in the destination is only warned about when not strict, and yet the replay
      raises as soon as a new image shares a digest with it. */
  lemma AbsentImageStillNeeded(source: Registry, a: string, b: string, d: Digest, dest: Registry)
    requires a != b && Encode(source, [a, b], [a]).Ok?
    requires GetManifest(source, a).Ok? && d in GetListOfBlobs(GetManifest(source, a).value)
    requires GetManifest(source, b).Ok? && d in GetListOfBlobs(GetManifest(source, b).value)
    requires HasColon(a) && GetRepoAndTag(a).value !in dest.manifests
    requires Blob(GetRepoAndTag(a).value.repository, d) !in dest.blobs
    ensures LoadZipImages(dest, Encode(source, [a, b], [a]).value, false, None).error == Some(MountFailed)
  {
    hide Encode, LoadZipImages, GetManifests, FinalDescriptor, GetListOfBlobs, GetManifest, GetRepoAndTag, HasColon,
      PutManifests, Pending, Keys, SkipsPass, AllNamed;
    OnlyPending(a, b);
    Unpacked(source, [a, b], [a]);
    ReadAlone(source, b, [a]);
    assert d in GetListOfBlobs(PutManifests(source, [b])[0]);
    SharedIsMounted(source, [a, b], a, 0, d);
    AbsentSkips(a, b, dest);
    MountMissing(source, [a, b], [a], dest, false, None, 0, Blob(GetRepoAndTag(a).value.repository, d));
  }
}
