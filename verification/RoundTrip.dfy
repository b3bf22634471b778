/** What packing with the encoder and replaying with the decoder preserves. */
module RoundTrip {
  import opened Common
  import opened ImageNames
  import opened Encoder
  import opened Decoder
  import opened Replay

  /** The destination after replaying the payload of a source. */
  function Replayed(source: Registry, names: seq<string>, already: seq<string>, dest: Registry, strict: bool,
                    repository: Option<string>): Registry
    requires Encode(source, names, already).Ok?
  {
    Effects(dest, LoadZipImages(dest, Encode(source, names, already).value, strict, repository).steps)
  }

  /** Packing and replaying both return normally. */
  predicate Transferred(source: Registry, names: seq<string>, already: seq<string>, dest: Registry, strict: bool,
                        repository: Option<string>)
  {
    && Encode(source, names, already).Ok?
    && LoadZipImages(dest, Encode(source, names, already).value, strict, repository).error.None?
  }

  /** Packing, then replaying into any destination. It returns normally exactly when the checks of the images
      left out pass and every digest to mount is in the destination where it is said to be. Then every image is
      yielded in order, every new target holds the manifest of its origin with all its blobs in its repository,
      every other image is as it was, and no blob was added but those needed. */
  lemma RoundTrip(source: Registry, names: seq<string>, already: seq<string>, dest: Registry, strict: bool,
                  repository: Option<string>)
    requires Encode(source, names, already).Ok?
    ensures GetManifests(source, Pending(names, already)).Ok?
    ensures AllNamed(Keys(names)) && AllNamed(Pending(names, already))
    ensures Transferred(source, names, already, dest, strict, repository) <==>
            && SkipsPass(dest, Keys(names), already, strict, repository)
            && MountsFound(source, names, already, dest.blobs)
    ensures Transferred(source, names, already, dest, strict, repository) ==>
              LoadZipImages(dest, Encode(source, names, already).value, strict, repository).images
              == TargetNames(Keys(names), repository)
    ensures Transferred(source, names, already, dest, strict, repository) ==>
              var pending, after := Pending(names, already), Replayed(source, names, already, dest, strict, repository);
              && (forall i :: 0 <= i < |pending| ==>
                    var t, m := Target(pending[i], repository),
                        Fetched(source, pending, Origin(pending, repository, i));
                    t in after.manifests && after.manifests[t] == Single(m) && HasBlobs(after, t.repository, m))
              && (forall t :: t !in Targets(pending, repository) ==> (t in after.manifests <==> t in dest.manifests))
              && (forall t :: t !in Targets(pending, repository) && t in dest.manifests ==>
                    after.manifests[t] == dest.manifests[t])
              && (forall b :: b in after.blobs <==>
                    b in dest.blobs || Needs(Targets(pending, repository), PutManifests(source, pending), b))
  {
    hide LoadZipImages, Encode, GetManifests, GetListOfBlobs, SkipsPass, MountsFound, Keys, TargetNames, GetRepoAndTag,
      SamePath, Placed, Needs, Target, Fetched, Pending, AllNamed, HasColon;
    ReplayExactly(source, names, already, dest, strict, repository);
    if Transferred(source, names, already, dest, strict, repository) {
      var pending, after := Pending(names, already), Replayed(source, names, already, dest, strict, repository);
      var targets, ms := Targets(pending, repository), PutManifests(source, pending);
      PlacedExact(dest, targets, ms);
      forall i | 0 <= i < |pending|
        ensures var t, m := Target(pending[i], repository), Fetched(source, pending, Origin(pending, repository, i));
                t in after.manifests && after.manifests[t] == Single(m) && HasBlobs(after, t.repository, m)
      {
        var k := LastIndex(targets, targets[i]);
        assert targets[i] in targets && ms[k] == Fetched(source, pending, Origin(pending, repository, i));
        PlacedHasBlobs(dest, targets, ms, k);
      }
    }
  }

  lemma PlacedHasBlobs(dest: Registry, targets: seq<Image>, ms: seq<Manifest>, k: nat)
    requires |targets| == |ms| && k < |ms|
    ensures HasBlobs(Placed(dest, targets, ms), targets[k].repository, ms[k])
  {
    hide Placed, GetListOfBlobs;
    PlacedExact(dest, targets, ms);
    forall d | d in GetListOfBlobs(ms[k]) ensures Blob(targets[k].repository, d) in Placed(dest, targets, ms).blobs {
      assert Needs(targets, ms, Blob(targets[k].repository, d));
    }
    forall d ensures d in GetListOfBlobs(ms[k]) <==> d == ms[k].config || d in ms[k].layers {
      ListedBlobs(ms[k], d);
    }
  }

  predicate Distinct<T(==)>(keys: seq<T>) {
    forall i, j :: 0 <= i < j < |keys| ==> keys[i] != keys[j]
  }

  /* ---------- when the replay returns normally ---------- */

  /** What the decoder accepts of an image left out of the archive: not blocked, and there when strict. */
  predicate Accepted(dest: Registry, name: string, strict: bool)
    requires HasColon(name)
  {
    var image := GetRepoAndTag(name).value;
    if image in dest.manifests then !dest.manifests[image].Blocked? else !strict
  }

  /** Without the override no new image goes where a skipped one is, so its check sees the initial registry. */
  lemma SkipAccepted(dest: Registry, names: seq<string>, already: seq<string>, strict: bool, i: nat)
    requires AllNamed(names) && Distinct(names) && i < |names|
    ensures SkipPasses(dest, names, already, strict, None, i) <==> Accepted(dest, names[i], strict)
  {
    hide GetRepoAndTag, HasColon;
    forall j | 0 <= j < i ensures Target(names[j], None) != Target(names[i], None) {
      NamesDistinct(names[j], names[i]);
    }
  }

  /** Without the override, replaying a payload raises exactly when some image left out is blocked in the
      destination, or absent from it in strict mode, or some digest to mount is not where it is said to be. */
  lemma StrictExactly(source: Registry, names: seq<string>, already: seq<string>, dest: Registry, strict: bool)
    requires Encode(source, names, already).Ok?
    ensures AllNamed(Keys(names))
    ensures Transferred(source, names, already, dest, strict, None) <==>
            && MountsFound(source, names, already, dest.blobs)
            && forall i :: 0 <= i < |Keys(names)| && Keys(names)[i] in already ==>
                 Accepted(dest, Keys(names)[i], strict)
  {
    hide MountsFound, Encode, LoadZipImages, Accepted, SkipPasses, Keys;
    ReplayExactly(source, names, already, dest, strict, None);
    forall i | 0 <= i < |Keys(names)|
      ensures SkipPasses(dest, Keys(names), already, strict, None, i) <==> Accepted(dest, Keys(names)[i], strict)
    {
      assert Distinct(Keys(names));
      SkipAccepted(dest, Keys(names), already, strict, i);
    }
  }

  /** The destination holds every blob of the images said to be there, each in its image's repository. */
  predicate HoldsTransferred(source: Registry, already: seq<string>, dest: Registry) {
    forall a :: a in already && GetManifest(source, a).Ok? ==>
      HasBlobs(dest, GetRepoAndTag(a).value.repository, GetManifest(source, a).value)
  }

  lemma DigestHeld(source: Registry, names: seq<string>, already: seq<string>, dest: Registry, k: nat, d: Digest)
    requires Encode(source, names, already).Ok? && HoldsTransferred(source, already, dest)
    requires GetManifests(source, Pending(names, already)).Ok? && k < |Pending(names, already)|
    requires d in GetListOfBlobs(PutManifests(source, Pending(names, already))[k])
    ensures Found(dest.blobs, FinalDescriptor(source, names, already).blobsPaths, d)
  {
    hide GetListOfBlobs, PutManifests, Encode, FinalDescriptor, GetManifests, HoldsTransferred, BlobOf, Pending;
    DigestLocated(source, names, already, k, d);
    var paths := FinalDescriptor(source, names, already).blobsPaths;
    if paths[d].InRegistry? {
      HeldWhereLocated(source, already, dest, Blob(paths[d].repository, d));
    }
  }

  /** Then no mount fails. */
  lemma TransferredSuffices(source: Registry, names: seq<string>, already: seq<string>, dest: Registry)
    requires Encode(source, names, already).Ok? && HoldsTransferred(source, already, dest)
    ensures MountsFound(source, names, already, dest.blobs)
  {
    hide GetListOfBlobs, FinalDescriptor, PutManifests, Encode, GetManifests, HoldsTransferred, Found,
      NotTransferredYet, Keys, AllNamed;
    Unpacked(source, names, already);
    var pending, paths := Pending(names, already), FinalDescriptor(source, names, already).blobsPaths;
    forall k | 0 <= k < |pending| ensures AllFound(dest.blobs, paths, PutManifests(source, pending)[k]) {
      forall d | d in GetListOfBlobs(PutManifests(source, pending)[k]) ensures Found(dest.blobs, paths, d) {
        DigestHeld(source, names, already, dest, k, d);
      }
    }
  }

  lemma HeldWhereLocated(source: Registry, already: seq<string>, dest: Registry, b: Blob)
    requires HoldsTransferred(source, already, dest) && GetManifests(source, already).Ok?
    requires exists i :: 0 <= i < |already| && BlobOf(GetManifests(source, already).value[i], b)
    ensures b in dest.blobs
  {
    hide GetListOfBlobs, GetManifest;
    var i :| 0 <= i < |already| && BlobOf(GetManifests(source, already).value[i], b);
    var m := GetManifests(source, already).value[i].manifest;
    assert already[i] in already && GetManifest(source, already[i]) == Ok(m);
    ListedBlobs(m, b.digest);
    assert HasBlobs(dest, b.repository, m);
  }

  /** A digest the decoder looks up is to be mounted exactly when some image already transferred has it, and
      then from the repository of the first one that has. */
  lemma DigestLocated(source: Registry, names: seq<string>, already: seq<string>, k: nat, d: Digest)
    requires Encode(source, names, already).Ok?
    ensures GetManifests(source, Pending(names, already)).Ok? && GetManifests(source, already).Ok?
    ensures k < |Pending(names, already)| && d in GetListOfBlobs(PutManifests(source, Pending(names, already))[k]) ==>
              var paths, there := FinalDescriptor(source, names, already).blobsPaths,
                  GetManifests(source, already).value;
              && d in paths
              && (paths[d].InRegistry? ==>
                   exists i :: 0 <= i < |there| && FirstListing(there, Blob(paths[d].repository, d), i))
              && ((exists i :: 0 <= i < |there| && d in GetListOfBlobs(there[i].manifest)) ==> paths[d].InRegistry?)
  {
    hide GetListOfBlobs, AddBlobs, AllBlobs, BlobMembers, ManifestMembers, DESCRIPTOR_PATH, Lookup, DigestsOf,
      SamePath, BlobPath, GetManifests, CompleteAndMinimal, GetManifest;
    Unpacked(source, names, already);
    FetchedNames(source, already);
    var pending := Pending(names, already);
    if k < |pending| && d in GetListOfBlobs(PutManifests(source, pending)[k]) {
      DigestPlaced(source, pending, already, SamePath(pending, k), d);
      var paths := FinalDescriptor(source, names, already).blobsPaths;
      LocatedIn(GetManifests(source, already).value, d, paths[d]);
    }
  }

  lemma {:induction false} LocatedIn(there: seq<Named>, d: Digest, location: Location)
    requires forall i :: 0 <= i < |there| ==> HasColon(there[i].name)
    requires location.InRegistry? <==> d in DigestsOf(AllBlobs(there))
    requires location.InRegistry? ==> FirstWithDigest(AllBlobs(there), Blob(location.repository, d))
    ensures location.InRegistry? ==>
              exists i :: 0 <= i < |there| && FirstListing(there, Blob(location.repository, d), i)
    ensures (exists i :: 0 <= i < |there| && d in GetListOfBlobs(there[i].manifest)) ==> location.InRegistry?
  {
    hide GetListOfBlobs, AllBlobs;
    if location.InRegistry? {
      FirstBlobListed(there, Blob(location.repository, d));
    }
    if i :| 0 <= i < |there| && d in GetListOfBlobs(there[i].manifest) {
      var b := Blob(GetRepoAndTag(there[i].name).value.repository, d);
      assert BlobOf(there[i], b);
      FetchedBlobs(there, b);
      var j :| 0 <= j < |AllBlobs(there)| && AllBlobs(there)[j] == b;
    }
  }

  /* ---------- when images arrive intact ---------- */

  /** The image has at its target what the source has for it. */
  predicate IntactAt(source: Registry, name: string, after: Registry, repository: Option<string>)
    requires HasColon(name)
  {
    && GetRepoAndTag(name).value in source.manifests
    && Target(name, repository) in after.manifests
    && after.manifests[Target(name, repository)] == source.manifests[GetRepoAndTag(name).value]
  }

  predicate Intact(source: Registry, pending: seq<string>, after: Registry, repository: Option<string>)
    requires AllNamed(pending)
  {
    forall i :: 0 <= i < |pending| ==> IntactAt(source, pending[i], after, repository)
  }

  lemma IntactAtExactly(source: Registry, pending: seq<string>, after: Registry, repository: Option<string>, i: nat,
                        m: Manifest)
    requires GetManifests(source, pending).Ok? && i < |pending| && HasColon(pending[i])
    requires Target(pending[i], repository) in after.manifests
        && after.manifests[Target(pending[i], repository)] == Single(m)
    ensures IntactAt(source, pending[i], after, repository) <==> Fetched(source, pending, i) == m
  {
  }

  /** In general the round trip is exact precisely when every image has the manifest of its origin. */
  lemma IntactExactly(source: Registry, names: seq<string>, already: seq<string>, dest: Registry, strict: bool,
                      repository: Option<string>)
    requires Transferred(source, names, already, dest, strict, repository)
    ensures GetManifests(source, Pending(names, already)).Ok? && AllNamed(Pending(names, already))
    ensures var pending := Pending(names, already);
            Intact(source, pending, Replayed(source, names, already, dest, strict, repository), repository) <==>
            forall i :: 0 <= i < |pending| ==>
              Fetched(source, pending, i) == Fetched(source, pending, Origin(pending, repository, i))
  {
    hide Replayed, Encode, LoadZipImages, SkipsPass, MountsFound, Origin, TargetNames, Keys, HasBlobs, Needs, Targets,
      PutManifests, Pending, NormalizeName, Target, HasColon, GetManifests, IntactAt, Fetched, GetRepoAndTag;
    RoundTrip(source, names, already, dest, strict, repository);
    var pending, after := Pending(names, already), Replayed(source, names, already, dest, strict, repository);
    forall i | 0 <= i < |pending|
      ensures IntactAt(source, pending[i], after, repository) <==>
              Fetched(source, pending, i) == Fetched(source, pending, Origin(pending, repository, i))
    {
      IntactAtExactly(source, pending, after, repository, i, Fetched(source, pending, Origin(pending, repository, i)));
    }
  }

  /** Images that agree on `key` have the same manifest. */
  predicate ClashesAgree<T(==)>(source: Registry, pending: seq<string>, keys: seq<T>)
    requires GetManifests(source, pending).Ok? && |keys| == |pending|
  {
    forall i, j :: 0 <= i < j < |pending| && keys[i] == keys[j] ==>
        Fetched(source, pending, i) == Fetched(source, pending, j)
  }

  lemma {:induction false} PendingDistinct(images: seq<string>, already: seq<string>)
    requires Distinct(images)
    ensures Distinct(NotTransferredYet(images, already))
    decreases |images|
  {
    if images != [] {
      var n := |images| - 1;
      PendingDistinct(images[..n], already);
      assert forall k :: 0 <= k < |NotTransferredYet(images[..n], already)| ==>
          NotTransferredYet(images[..n], already)[k] in images[..n];
    }
  }

  lemma LastOfDistinct<T>(keys: seq<T>, i: nat)
    requires i < |keys| && Distinct(keys)
    ensures LastIndex(keys, keys[i]) == i
  {
  }

  lemma TargetsDistinct(names: seq<string>)
    requires AllNamed(names) && Distinct(names)
    ensures Distinct(Targets(names, None))
  {
  }

  /** Without the override, exact precisely when images packed under one path, that is images whose names
      differ by slashes against underscores only, have the same manifest. */
  lemma IntactWithoutOverride(source: Registry, names: seq<string>, already: seq<string>, dest: Registry, strict: bool)
    requires Transferred(source, names, already, dest, strict, None)
    ensures GetManifests(source, Pending(names, already)).Ok? && AllNamed(Pending(names, already))
    ensures var pending := Pending(names, already);
            Intact(source, pending, Replayed(source, names, already, dest, strict, None), None) <==>
            ClashesAgree(source, pending, Paths(pending))
  {
    hide Replayed, Encode, LoadZipImages, SkipsPass, MountsFound, GetManifests, Intact, Keys, NotTransferredYet,
      GetRepoAndTag, NormalizeName, Fetched, Target, HasColon;
    IntactExactly(source, names, already, dest, strict, None);
    var pending := Pending(names, already);
    assert Distinct(Keys(names));
    PendingDistinct(Keys(names), already);
    TargetsDistinct(pending);
    forall i | 0 <= i < |pending| ensures Origin(pending, None, i) == LastIndex(Paths(pending), Paths(pending)[i]) {
      LastOfDistinct(Targets(pending, None), i);
    }
    LastsAgree(source, pending, Paths(pending));
  }

  /** Image `i` has the manifest of the last one with its key. */
  predicate AgreesWithLast<T(==)>(source: Registry, pending: seq<string>, keys: seq<T>, i: nat)
    requires GetManifests(source, pending).Ok? && |keys| == |pending| && i < |keys|
  {
    Fetched(source, pending, i) == Fetched(source, pending, LastIndex(keys, keys[i]))
  }

  /** Two images that agree with the last one of their key agree with each other. */
  lemma SameLast<T>(source: Registry, pending: seq<string>, keys: seq<T>, i: nat, j: nat)
    requires GetManifests(source, pending).Ok? && |keys| == |pending| && i < j < |keys| && keys[i] == keys[j]
    requires AgreesWithLast(source, pending, keys, i) && AgreesWithLast(source, pending, keys, j)
    ensures Fetched(source, pending, i) == Fetched(source, pending, j)
  {
    hide GetManifests, Fetched, LastIndex;
  }

  lemma AgreesAt<T>(source: Registry, pending: seq<string>, keys: seq<T>, i: nat)
    requires GetManifests(source, pending).Ok? && |keys| == |pending| && i < |keys|
    requires ClashesAgree(source, pending, keys)
    ensures AgreesWithLast(source, pending, keys, i)
  {
    hide GetManifests, Fetched;
    var last := LastIndex(keys, keys[i]);
    assert i <= last && keys[i] == keys[last];
  }

  /** Images all agree with the last one of the same key exactly when they agree pairwise. */
  lemma LastsAgree<T>(source: Registry, pending: seq<string>, keys: seq<T>)
    requires GetManifests(source, pending).Ok? && |keys| == |pending|
    ensures ClashesAgree(source, pending, keys) <==>
            forall i :: 0 <= i < |pending| ==> AgreesWithLast(source, pending, keys, i)
  {
    hide GetManifests, Fetched, AgreesWithLast;
    if ClashesAgree(source, pending, keys) {
      forall i | 0 <= i < |pending| ensures AgreesWithLast(source, pending, keys, i) {
        AgreesAt(source, pending, keys, i);
      }
    }
    if forall i :: 0 <= i < |pending| ==> AgreesWithLast(source, pending, keys, i) {
      forall i, j | 0 <= i < j < |pending| && keys[i] == keys[j]
        ensures Fetched(source, pending, i) == Fetched(source, pending, j)
      {
        SameLast(source, pending, keys, i, j);
      }
    }
  }

  /** With archive paths all distinct, exact precisely when images that share a target, which needs the
      override and a common tag, have the same manifest. */
  lemma IntactWithDistinctPaths(source: Registry, names: seq<string>, already: seq<string>, dest: Registry,
                                strict: bool, repository: Option<string>)
    requires Transferred(source, names, already, dest, strict, repository)
    requires Distinct(Paths(Pending(names, already)))
    ensures GetManifests(source, Pending(names, already)).Ok? && AllNamed(Pending(names, already))
    ensures var pending := Pending(names, already);
            Intact(source, pending, Replayed(source, names, already, dest, strict, repository), repository) <==>
            ClashesAgree(source, pending, Targets(pending, repository))
  {
    hide Replayed, Encode, LoadZipImages, SkipsPass, MountsFound, GetManifests, Intact, Keys, NotTransferredYet,
      GetRepoAndTag, NormalizeName, Fetched, Target, HasColon;
    IntactExactly(source, names, already, dest, strict, repository);
    var pending := Pending(names, already);
    forall i | 0 <= i < |pending|
      ensures Origin(pending, repository, i) == LastIndex(Targets(pending, repository), Targets(pending, repository)[i])
    {
      LastOfDistinct(Paths(pending), LastIndex(Targets(pending, repository), Targets(pending, repository)[i]));
    }
    LastsAgree(source, pending, Targets(pending, repository));
  }

  /* ---------- both conditions can fail ---------- */

  function TwoImages(first: Image, second: Image): Registry {
    Registry(map[first := Single(Manifest("x", [])), second := Single(Manifest("y", []))],
             {Blob(first.repository, "x"), Blob(second.repository, "y")})
  }

  lemma TwoPending(a: string, b: string)
    requires a != b
    ensures Pending([a, b], []) == [a, b]
  {
    assert [a, b][..1] == [a] && [a][..0] == [];
    assert Keys([a]) == [a];
    assert NotTransferredYet([a], []) == [a];
  }

  lemma TwoManifests(a: string, b: string)
    requires HasColon(a) && HasColon(b) && a != b
    ensures var source := TwoImages(GetRepoAndTag(a).value, GetRepoAndTag(b).value);
            && GetManifest(source, a) == Ok(Manifest("x", [])) && GetManifest(source, b) == Ok(Manifest("y", []))
            && Closed(source)
  {
  }

  lemma TwoImagesPacked(a: string, b: string, repository: Option<string>)
    requires HasColon(a) && HasColon(b) && a != b
    ensures var source := TwoImages(GetRepoAndTag(a).value, GetRepoAndTag(b).value);
            && Pending([a, b], []) == [a, b] && GetManifests(source, [a, b]).Ok?
            && Fetched(source, [a, b], 0) != Fetched(source, [a, b], 1)
            && Transferred(source, [a, b], [], Registry(map[], {}), true, repository)
  {
    hide Encode, TwoImages, GetManifest, GetRepoAndTag, Pending, Closed, HasColon, HasBlobs, MountsFound,
      LoadZipImages;
    var source, pair, empty := TwoImages(GetRepoAndTag(a).value, GetRepoAndTag(b).value), [a, b], Registry(map[], {});
    TwoPending(a, b);
    TwoManifests(a, b);
    assert pair[0] == a && pair[1] == b;
    EncodeSucceeds(source, pair, []);
    TransferredSuffices(source, pair, [], empty);
    ReplayExactly(source, pair, [], empty, true, repository);
  }

  /** Nothing stops the transfer, and yet some new image does not arrive as it was. */
  predicate Misplaced(source: Registry, names: seq<string>, dest: Registry, repository: Option<string>) {
    && Transferred(source, names, [], dest, true, repository)
    && AllNamed(Pending(names, []))
    && !Intact(source, Pending(names, []), Replayed(source, names, [], dest, true, repository), repository)
  }

  /** Whenever two images' names differ by slashes against underscores only, the first may arrive with the
      second one's manifest. */
  lemma NormalizedNamesClash(a: string, b: string)
    requires HasColon(a) && HasColon(b) && a != b && NormalizeName(a) == NormalizeName(b)
    ensures Misplaced(TwoImages(GetRepoAndTag(a).value, GetRepoAndTag(b).value), [a, b], Registry(map[], {}), None)
  {
    hide Encode, Transferred, Replayed, Intact, Fetched, Pending, TwoImages, GetManifests, GetRepoAndTag, HasColon;
    var source := TwoImages(GetRepoAndTag(a).value, GetRepoAndTag(b).value);
    TwoImagesPacked(a, b, None);
    IntactWithoutOverride(source, [a, b], [], Registry(map[], {}), true);
    assert Paths([a, b])[0] == Paths([a, b])[1];
  }

  /** There are such names. */
  lemma SlashAgainstUnderscore()
    ensures HasColon("a/b:1") && HasColon("a_b:1") && NormalizeName("a/b:1") == NormalizeName("a_b:1")
  {
  }

  /** Whenever two images have the same tag, under the override the first may be overwritten. */
  lemma OverriddenTagsClash(a: string, b: string, repository: string)
    requires HasColon(a) && HasColon(b) && NormalizeName(a) != NormalizeName(b)
    requires GetRepoAndTag(a).value.tag == GetRepoAndTag(b).value.tag
    ensures Misplaced(TwoImages(GetRepoAndTag(a).value, GetRepoAndTag(b).value), [a, b], Registry(map[], {}),
                      Some(repository))
  {
    hide Encode, Transferred, Replayed, Intact, Fetched, Pending, TwoImages, GetManifests, GetRepoAndTag, HasColon;
    var source := TwoImages(GetRepoAndTag(a).value, GetRepoAndTag(b).value);
    TwoImagesPacked(a, b, Some(repository));
    IntactWithDistinctPaths(source, [a, b], [], Registry(map[], {}), true, Some(repository));
    assert Targets([a, b], Some(repository))[0] == Targets([a, b], Some(repository))[1];
  }
}
