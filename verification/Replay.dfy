/** What the decoder does with an archive the encoder wrote: when it raises, and what it leaves in the destination. */
module Replay {
  import opened Common
  import opened ImageNames
  import opened Encoder
  import opened Decoder

  /* ---------- which image's manifest ends up where ---------- */

  function LastIndex<T(==)>(keys: seq<T>, k: T): (r: nat)
    requires k in keys
    ensures r < |keys| && keys[r] == k && forall j :: r < j < |keys| ==> keys[j] != k
  {
    var n := |keys| - 1;
    assert keys == keys[..n] + [keys[n]];
    if keys[n] == k then n else LastIndex(keys[..n], k)
  }

  function Pending(names: seq<string>, already: seq<string>): seq<string> {
    NotTransferredYet(Keys(names), already)
  }

  /** Where an image goes in the destination. */
  function Target(name: string, repository: Option<string>): Image
    requires HasColon(name)
  {
    ColonStays(name, repository);
    GetRepoAndTag(TargetName(name, repository).value).value
  }

  lemma ColonStays(name: string, repository: Option<string>)
    requires HasColon(name)
    ensures TargetName(name, repository).Some? && HasColon(TargetName(name, repository).value)
  {
  }

  predicate AllNamed(names: seq<string>) {
    forall i :: 0 <= i < |names| ==> HasColon(names[i])
  }

  function Targets(names: seq<string>, repository: Option<string>): seq<Image>
    requires AllNamed(names)
  {
    seq(|names|, i requires 0 <= i < |names| => Target(names[i], repository))
  }

  function TargetNames(names: seq<string>, repository: Option<string>): seq<string>
    requires AllNamed(names)
  {
    seq(|names|, i requires 0 <= i < |names| =>
      ColonStays(names[i], repository); TargetName(names[i], repository).value)
  }

  function Paths(names: seq<string>): seq<string> {
    seq(|names|, i requires 0 <= i < |names| => NormalizeName(names[i]))
  }

  /** The last image packed under the archive path of image `i`. */
  function SamePath(names: seq<string>, i: nat): (r: nat)
    requires i < |names|
    ensures r < |names|
  {
    LastIndex(Paths(names), Paths(names)[i])
  }

  /** The image whose manifest the target of image `i` ends with: the last image with that target is read
      from a path last written by this one. */
  function Origin(names: seq<string>, repository: Option<string>, i: nat): (r: nat)
    requires i < |names| && AllNamed(names)
    ensures r < |names|
  {
    SamePath(names, LastIndex(Targets(names, repository), Targets(names, repository)[i]))
  }

  /* ---------- what the archive reads ---------- */

  lemma {:induction false} BlobReads(written: seq<Digest>, d: Digest)
    requires d in written
    ensures Lookup(BlobMembers(written), BlobPath(d)) == Some(BlobEntry(d))
  {
    var i := LastIndex(written, d);
    forall j | i < j < |written| ensures BlobMembers(written)[j].path != BlobPath(d) {
      PathsApart("", d, written[j]);
    }
    LookupLast(BlobMembers(written), BlobPath(d), i);
  }

  lemma ManifestReads(ms: seq<Named>, names: seq<string>, i: nat)
    requires i < |ms| == |names| && forall j :: 0 <= j < |ms| ==> ms[j].name == names[j]
    ensures Lookup(ManifestMembers(ms), ManifestPath(names[i])) == Some(ManifestEntry(ms[SamePath(names, i)].manifest))
  {
    var k := SamePath(names, i);
    SameManifestPath(names[i], names[k]);
    forall j | k < j < |ms| ensures ManifestMembers(ms)[j].path != ManifestPath(names[i]) {
      assert Paths(names)[j] != Paths(names)[i];
      SameManifestPath(names[i], names[j]);
    }
    LookupLast(ManifestMembers(ms), ManifestPath(names[i]), k);
  }

  /** The three kinds of members do not hide each other. */
  lemma ZipReads(written: seq<Digest>, ms: seq<Named>, names: seq<string>, d: Descriptor)
    requires |ms| == |names| && forall j :: 0 <= j < |ms| ==> ms[j].name == names[j]
    ensures var zip := BlobMembers(written) + ManifestMembers(ms) + [Member(DESCRIPTOR_PATH, DescriptorEntry(d))];
            && Lookup(zip, DESCRIPTOR_PATH) == Some(DescriptorEntry(d))
            && (forall b :: b in written ==> Lookup(zip, BlobPath(b)) == Some(BlobEntry(b)))
            && (forall i :: 0 <= i < |names| ==>
                  Lookup(zip, ManifestPath(names[i])) == Some(ManifestEntry(ms[SamePath(names, i)].manifest)))
  {
    hide SamePath, ManifestPath, BlobPath, Lookup, DESCRIPTOR_PATH;
    var blobs, manifests, tail :=
        BlobMembers(written), ManifestMembers(ms), [Member(DESCRIPTOR_PATH, DescriptorEntry(d))];
    var zip := blobs + manifests + tail;
    LookupLast(tail, DESCRIPTOR_PATH, 0);
    LookupConcat(blobs + manifests, tail, DESCRIPTOR_PATH);
    forall b | b in written ensures Lookup(zip, BlobPath(b)) == Some(BlobEntry(b)) {
      BlobReads(written, b);
      forall j | 0 <= j < |manifests| ensures manifests[j].path != BlobPath(b) {
        PathsApart(ms[j].name, b, b);
      }
      PathsApart("", b, b);
      LookupAbsent(manifests, BlobPath(b));
      LookupAbsent(tail, BlobPath(b));
      LookupConcat(blobs, manifests, BlobPath(b));
      LookupConcat(blobs + manifests, tail, BlobPath(b));
    }
    forall i | 0 <= i < |names|
      ensures Lookup(zip, ManifestPath(names[i])) == Some(ManifestEntry(ms[SamePath(names, i)].manifest))
    {
      ManifestReads(ms, names, i);
      PathsApart(names[i], "", "");
      LookupAbsent(tail, ManifestPath(names[i]));
      LookupConcat(blobs, manifests, ManifestPath(names[i]));
      LookupConcat(blobs + manifests, tail, ManifestPath(names[i]));
    }
  }

  /* ---------- one image ---------- */

  /** A digest stored in the archive reads back. */
  predicate Stocked(zip: Zip, paths: map<Digest, Location>, d: Digest) {
    d in paths && (paths[d].InZip? ==> Lookup(zip, paths[d].path) == Some(BlobEntry(d)))
  }

  /** A digest located in a repository is there. */
  predicate Found(blobs: set<Blob>, paths: map<Digest, Location>, d: Digest) {
    d in paths && (paths[d].InRegistry? ==> Blob(paths[d].repository, d) in blobs)
  }

  /** `blobs` has grown from those of `dest`, but not where digests are located. */
  ghost predicate Stable(dest: Registry, blobs: set<Blob>, paths: map<Digest, Location>) {
    dest.blobs <= blobs && forall d :: Found(blobs, paths, d) ==> Found(dest.blobs, paths, d)
  }

  function RepoBlobs(repository: string, digests: seq<Digest>): set<Blob> {
    set d | d in digests :: Blob(repository, d)
  }

  lemma StepEffect(dest: Registry, steps: seq<Step>, s: Step)
    ensures Effects(dest, steps + [s]) == Effect(Effects(dest, steps), s)
  {
  }

  /** A blob can be put exactly when it is found in the initial destination, whatever has been put since: the
      first write of a digest where it is located would be a mount from there. */
  lemma PushOneExactly(dest: Registry, p: Progress, zip: Zip, repository: string, d: Digest,
                       paths: map<Digest, Location>)
    requires p.error.None? && Stable(dest, Effects(dest, p.steps).blobs, paths) && Stocked(zip, paths, d)
    ensures var after := PushOneBlob(dest, p, zip, repository, d, paths);
            var before := Effects(dest, p.steps);
            && after.images == p.images && (after.error.None? <==> Found(dest.blobs, paths, d))
            && (after.error.Some? ==> after.error == Some(MountFailed))
            && (after.error.None? ==>
                  && Effects(dest, after.steps) == Registry(before.manifests, before.blobs + {Blob(repository, d)})
                  && Stable(dest, Effects(dest, after.steps).blobs, paths))
  {
    hide Effects, Lookup;
    var after := PushOneBlob(dest, p, zip, repository, d, paths);
    assert Found(Effects(dest, p.steps).blobs, paths, d) <==> Found(dest.blobs, paths, d);
    if after.error.None? {
      StepEffect(dest, p.steps, after.steps[|p.steps|]);
    }
  }

  lemma {:induction false} PushBlobsExactly(dest: Registry, p: Progress, zip: Zip, repository: string,
                                            digests: seq<Digest>, paths: map<Digest, Location>)
    requires p.error.None? && Stable(dest, Effects(dest, p.steps).blobs, paths)
    requires forall d :: d in digests ==> Stocked(zip, paths, d)
    ensures var after := PushBlobs(dest, p, zip, repository, digests, paths);
            var before := Effects(dest, p.steps);
            && after.images == p.images
            && (after.error.None? <==> forall d :: d in digests ==> Found(dest.blobs, paths, d))
            && (after.error.Some? ==> after.error == Some(MountFailed))
            && (after.error.None? ==>
                  && Effects(dest, after.steps)
                       == Registry(before.manifests, before.blobs + RepoBlobs(repository, digests))
                  && Stable(dest, Effects(dest, after.steps).blobs, paths))
    decreases |digests|
  {
    hide Effects, Stocked, Found, Stable, PushOneBlob;
    if digests == [] {
      assert RepoBlobs(repository, digests) == {};
    } else {
      var init, last := digests[..|digests| - 1], digests[|digests| - 1];
      assert forall d :: d in digests <==> d in init || d == last;
      PushBlobsExactly(dest, p, zip, repository, init, paths);
      var mid := PushBlobs(dest, p, zip, repository, init, paths);
      if mid.error.None? {
        PushOneExactly(dest, mid, zip, repository, last, paths);
        assert RepoBlobs(repository, digests) == RepoBlobs(repository, init) + {Blob(repository, last)};
      }
    }
  }

  /** The archive gives `m` for an image, and every blob it stores of it. */
  predicate Readable(zip: Zip, paths: map<Digest, Location>, name: string, m: Manifest) {
    Lookup(zip, ManifestPath(name)) == Some(ManifestEntry(m)) &&
    forall d :: d in GetListOfBlobs(m) ==> Stocked(zip, paths, d)
  }

  predicate AllFound(blobs: set<Blob>, paths: map<Digest, Location>, m: Manifest) {
    forall d :: d in GetListOfBlobs(m) ==> Found(blobs, paths, d)
  }

  lemma LoadSingleExactly(dest: Registry, p: Progress, zip: Zip, name: string, path: string,
                          paths: map<Digest, Location>, m: Manifest)
    requires p.error.None? && Stable(dest, Effects(dest, p.steps).blobs, paths)
    requires HasColon(name) && Lookup(zip, path) == Some(ManifestEntry(m))
    requires forall d :: d in GetListOfBlobs(m) ==> Stocked(zip, paths, d)
    ensures var after := LoadSingleImage(dest, p, zip, name, path, paths);
            var before, image := Effects(dest, p.steps), GetRepoAndTag(name).value;
            && after.images == p.images && (after.error.None? <==> AllFound(dest.blobs, paths, m))
            && (after.error.Some? ==> after.error == Some(MountFailed))
            && (after.error.None? ==>
                  Effects(dest, after.steps) == Registry(before.manifests[image := Single(m)],
                                                         before.blobs + RepoBlobs(image.repository, GetListOfBlobs(m))))
  {
    hide Stocked, Found, Stable, GetListOfBlobs, Effects;
    var image := GetRepoAndTag(name).value;
    PushBlobsExactly(dest, p, zip, image.repository, GetListOfBlobs(m), paths);
    var pushed := PushBlobs(dest, p, zip, image.repository, GetListOfBlobs(m), paths);
    StepEffect(dest, pushed.steps, SetManifest(image, m));
  }

  /** The registry after putting each manifest, with its blobs, at its target in turn. */
  function Placed(dest: Registry, targets: seq<Image>, ms: seq<Manifest>): Registry
    requires |targets| == |ms|
  {
    if targets == [] then dest
    else
      var n := |targets| - 1;
      var before := Placed(dest, targets[..n], ms[..n]);
      Registry(before.manifests[targets[n] := Single(ms[n])],
               before.blobs + RepoBlobs(targets[n].repository, GetListOfBlobs(ms[n])))
  }

  predicate Needs(targets: seq<Image>, ms: seq<Manifest>, b: Blob)
    requires |targets| == |ms|
  {
    exists i :: 0 <= i < |targets| && b.repository == targets[i].repository && b.digest in GetListOfBlobs(ms[i])
  }

  lemma NeedsOneMore(targets: seq<Image>, ms: seq<Manifest>, b: Blob)
    requires |targets| == |ms| > 0
    ensures var n := |targets| - 1;
            Needs(targets, ms, b) <==>
            Needs(targets[..n], ms[..n], b) || b in RepoBlobs(targets[n].repository, GetListOfBlobs(ms[n]))
  {
    hide GetListOfBlobs;
    var n := |targets| - 1;
    var ts, rest := targets[..n], ms[..n];
    if Needs(targets, ms, b) {
      var i :| 0 <= i < |targets| && b.repository == targets[i].repository && b.digest in GetListOfBlobs(ms[i]);
      assert i < n ==> ts[i] == targets[i] && rest[i] == ms[i];
      assert i == n ==> b == Blob(targets[n].repository, b.digest);
    }
    if Needs(ts, rest, b) {
      var i :| 0 <= i < n && b.repository == ts[i].repository && b.digest in GetListOfBlobs(rest[i]);
      assert b.repository == targets[i].repository && b.digest in GetListOfBlobs(ms[i]);
    }
  }

  /** Each target holds the last manifest put there; nothing else moves; the blobs added are those needed. */
  lemma {:induction false} PlacedExact(dest: Registry, targets: seq<Image>, ms: seq<Manifest>)
    requires |targets| == |ms|
    ensures var after := Placed(dest, targets, ms);
            && (forall t :: t in targets ==>
                  t in after.manifests && after.manifests[t] == Single(ms[LastIndex(targets, t)]))
            && (forall t :: t !in targets ==> (t in after.manifests <==> t in dest.manifests))
            && (forall t :: t !in targets && t in dest.manifests ==> after.manifests[t] == dest.manifests[t])
            && (forall b :: b in after.blobs <==> b in dest.blobs || Needs(targets, ms, b))
    decreases |targets|
  {
    hide GetListOfBlobs, Needs, RepoBlobs;
    if targets == [] {
      forall b ensures !Needs(targets, ms, b) {
        NothingNeeded(targets, ms, b);
      }
    } else {
      var n := |targets| - 1;
      PlacedExact(dest, targets[..n], ms[..n]);
      assert targets == targets[..n] + [targets[n]];
      forall b ensures b in Placed(dest, targets, ms).blobs <==> b in dest.blobs || Needs(targets, ms, b) {
        NeedsOneMore(targets, ms, b);
      }
    }
  }

  lemma NothingNeeded(targets: seq<Image>, ms: seq<Manifest>, b: Blob)
    requires targets == [] && ms == []
    ensures !Needs(targets, ms, b)
  {
  }

  function Names(names: seq<string>, read: map<string, Manifest>): seq<Manifest>
    requires forall i :: 0 <= i < |names| ==> names[i] in read
  {
    seq(|names|, i requires 0 <= i < |names| => read[names[i]])
  }

  /** Putting manifests whose digests are all found changes nothing where digests are located. */
  lemma PlacedStable(dest: Registry, targets: seq<Image>, ms: seq<Manifest>, paths: map<Digest, Location>)
    requires |targets| == |ms| && forall i :: 0 <= i < |ms| ==> AllFound(dest.blobs, paths, ms[i])
    ensures Stable(dest, Placed(dest, targets, ms).blobs, paths)
  {
    hide GetListOfBlobs, Placed;
    PlacedExact(dest, targets, ms);
    forall d | Found(Placed(dest, targets, ms).blobs, paths, d) ensures Found(dest.blobs, paths, d) {
      if paths[d].InRegistry? && Needs(targets, ms, Blob(paths[d].repository, d)) {
        var i :| 0 <= i < |ms| && d in GetListOfBlobs(ms[i]);
        assert AllFound(dest.blobs, paths, ms[i]);
      }
    }
  }

  /** The check of an image left out passes once another image has been put at its target, and otherwise as in
      the initial destination. */
  lemma CheckExactly(dest: Registry, targets: seq<Image>, ms: seq<Manifest>, name: string, strict: bool)
    requires |targets| == |ms| && HasColon(name)
    ensures CheckImage(Placed(dest, targets, ms), name, strict)
         == if GetRepoAndTag(name).value in targets then None else CheckImage(dest, name, strict)
  {
    hide Placed;
    PlacedExact(dest, targets, ms);
  }

  lemma LoadOneExactly(dest: Registry, p: Progress, zip: Zip, d: Descriptor, name: string, strict: bool,
                       repository: Option<string>, targets: seq<Image>, ms: seq<Manifest>, m: Manifest)
    requires HasColon(name) && name in d.manifestsPaths && |targets| == |ms|
    requires p.error.None? && Effects(dest, p.steps) == Placed(dest, targets, ms)
    requires forall i :: 0 <= i < |ms| ==> AllFound(dest.blobs, d.blobsPaths, ms[i])
    requires d.manifestsPaths[name].Some? ==>
               d.manifestsPaths[name].value == ManifestPath(name) && Readable(zip, d.blobsPaths, name, m)
    ensures TargetName(name, repository).Some?
    ensures var after := LoadOneImage(dest, p, zip, d, name, strict, repository);
            var target := TargetName(name, repository).value;
            if d.manifestsPaths[name].None? then
              && after.error == (if Target(name, repository) in targets then None else CheckImage(dest, target, strict))
              && (after.error.None? ==>
                    after.images == p.images + [target] && Effects(dest, after.steps) == Placed(dest, targets, ms))
            else
              && (after.error.None? <==> AllFound(dest.blobs, d.blobsPaths, m))
              && (after.error.Some? ==> after.error == Some(MountFailed))
              && (after.error.None? ==>
                    && after.images == p.images + [target]
                    && Effects(dest, after.steps) == Placed(dest, targets + [Target(name, repository)], ms + [m]))
  {
    hide Lookup, ManifestPath, CheckImage, Stocked, Found, AllFound, Stable, GetRepoAndTag, LoadSingleImage,
      GetListOfBlobs;
    ColonStays(name, repository);
    var target := TargetName(name, repository).value;
    if d.manifestsPaths[name].None? {
      CheckExactly(dest, targets, ms, target, strict);
    } else {
      PlacedStable(dest, targets, ms, d.blobsPaths);
      LoadSingleExactly(dest, p, zip, target, ManifestPath(name), d.blobsPaths, m);
      assert (targets + [Target(name, repository)])[..|targets|] == targets && (ms + [m])[..|ms|] == ms;
    }
  }

  /* ---------- a list of images ---------- */

  /** A new image goes where image `i` does, and comes before it. */
  predicate SentBefore(names: seq<string>, already: seq<string>, repository: Option<string>, i: nat)
    requires AllNamed(names) && i < |names|
  {
    exists j :: 0 <= j < i && names[j] !in already && Target(names[j], repository) == Target(names[i], repository)
  }

  /** The check of image `i`, left out of the archive, passes at its turn. */
  predicate SkipPasses(dest: Registry, names: seq<string>, already: seq<string>, strict: bool,
                       repository: Option<string>, i: nat)
    requires AllNamed(names) && i < |names|
  {
    ColonStays(names[i], repository);
    SentBefore(names, already, repository, i)
    || CheckImage(dest, TargetName(names[i], repository).value, strict).None?
  }

  predicate SkipsPass(dest: Registry, names: seq<string>, already: seq<string>, strict: bool,
                      repository: Option<string>)
    requires AllNamed(names)
  {
    forall i :: 0 <= i < |names| && names[i] in already ==> SkipPasses(dest, names, already, strict, repository, i)
  }

  /** Every digest of a new image, as the archive gives it, is found. */
  predicate NewFound(blobs: set<Blob>, paths: map<Digest, Location>, names: seq<string>, already: seq<string>,
                     read: map<string, Manifest>)
    requires forall i :: 0 <= i < |names| && names[i] !in already ==> names[i] in read
  {
    forall i :: 0 <= i < |names| && names[i] !in already ==> AllFound(blobs, paths, read[names[i]])
  }

  lemma {:induction false} TargetsOfNew(names: seq<string>, already: seq<string>, repository: Option<string>, t: Image)
    requires AllNamed(names)
    ensures AllNamed(NotTransferredYet(names, already))
    ensures t in Targets(NotTransferredYet(names, already), repository) <==>
            exists j :: 0 <= j < |names| && names[j] !in already && Target(names[j], repository) == t
  {
    hide Target, HasColon;
    var unsent := NotTransferredYet(names, already);
    forall k | 0 <= k < |unsent| ensures HasColon(unsent[k]) {
      assert unsent[k] in names;
    }
    if t in Targets(unsent, repository) {
      var k :| 0 <= k < |unsent| && Target(unsent[k], repository) == t;
      assert unsent[k] in names && unsent[k] !in already;
    }
    if j :| 0 <= j < |names| && names[j] !in already && Target(names[j], repository) == t {
      assert names[j] in unsent;
      var k :| 0 <= k < |unsent| && unsent[k] == names[j];
      assert Targets(unsent, repository)[k] == t;
    }
  }

  lemma OneMoreName(names: seq<string>, name: string, repository: Option<string>)
    requires AllNamed(names) && HasColon(name)
    ensures AllNamed(names + [name]) && TargetName(name, repository).Some?
    ensures Targets(names + [name], repository) == Targets(names, repository) + [Target(name, repository)]
    ensures TargetNames(names + [name], repository)
        == TargetNames(names, repository) + [TargetName(name, repository).value]
  {
    hide TargetName, HasColon, GetRepoAndTag;
    ColonStays(name, repository);
    assert AllNamed(names + [name]);
  }

  lemma LengthOf(names: seq<string>, repository: Option<string>)
    requires AllNamed(names)
    ensures |Targets(names, repository)| == |names|
  {
  }

  /** One more name: what the two conditions say of it and of those before. */
  lemma OneMoreSkip(dest: Registry, names: seq<string>, name: string, already: seq<string>, strict: bool,
                    repository: Option<string>)
    requires AllNamed(names) && HasColon(name)
    ensures AllNamed(names + [name]) && AllNamed(NotTransferredYet(names, already))
        && TargetName(name, repository).Some?
    ensures SkipsPass(dest, names + [name], already, strict, repository) <==>
            && SkipsPass(dest, names, already, strict, repository)
            && (name in already ==>
                  || Target(name, repository) in Targets(NotTransferredYet(names, already), repository)
                  || CheckImage(dest, TargetName(name, repository).value, strict).None?)
  {
    hide Target, HasColon, CheckImage, TargetName, NotTransferredYet, Targets;
    var all, n := names + [name], |names|;
    assert AllNamed(all);
    ColonStays(name, repository);
    TargetsOfNew(names, already, repository, Target(name, repository));
    forall i | 0 <= i < n
      ensures SkipPasses(dest, all, already, strict, repository, i) <==>
          SkipPasses(dest, names, already, strict, repository, i)
    {
      assert all[i] == names[i];
      assert forall j :: 0 <= j < i ==> all[j] == names[j];
    }
    assert all[n] == name && forall j :: 0 <= j < n ==> all[j] == names[j];
    assert SkipPasses(dest, all, already, strict, repository, n) <==>
           || Target(name, repository) in Targets(NotTransferredYet(names, already), repository)
           || CheckImage(dest, TargetName(name, repository).value, strict).None?;
  }

  lemma OneMoreFound(blobs: set<Blob>, paths: map<Digest, Location>, names: seq<string>, name: string,
                     already: seq<string>, read: map<string, Manifest>)
    requires forall n :: n in names && n !in already ==> n in read
    requires name !in already ==> name in read
    ensures forall i :: 0 <= i <= |names| && (names + [name])[i] !in already ==> (names + [name])[i] in read
    ensures NewFound(blobs, paths, names + [name], already, read) <==>
            NewFound(blobs, paths, names, already, read) && (name !in already ==> AllFound(blobs, paths, read[name]))
  {
    hide AllFound;
    var all := names + [name];
    assert all[|names|] == name && forall i :: 0 <= i < |names| ==> all[i] == names[i] && names[i] in names;
  }

  /** The last image of a list, after the others went well. */
  lemma LastImage(dest: Registry, p: Progress, zip: Zip, d: Descriptor, init: seq<string>, name: string,
                  already: seq<string>, strict: bool, repository: Option<string>, read: map<string, Manifest>)
    requires AllNamed(init) && HasColon(name) && AllNamed(NotTransferredYet(init, already))
    requires name in d.manifestsPaths && d.manifestsPaths[name] == PathFor(name, already)
    requires forall n :: n in init && n !in already ==> n in read
    requires name !in already ==> name in read && Readable(zip, d.blobsPaths, name, read[name])
    requires NewFound(dest.blobs, d.blobsPaths, init, already, read)
    requires var before := NotTransferredYet(init, already);
             |Targets(before, repository)| == |before| && p.error.None?
             && Effects(dest, p.steps) == Placed(dest, Targets(before, repository), Names(before, read))
    ensures AllNamed(NotTransferredYet(init + [name], already)) && TargetName(name, repository).Some?
    ensures var after := LoadOneImage(dest, p, zip, d, name, strict, repository);
            var before, target := NotTransferredYet(init, already), TargetName(name, repository).value;
            && (after.error.None? <==>
                  && (name in already ==> Target(name, repository) in Targets(before, repository)
                                          || CheckImage(dest, target, strict).None?)
                  && (name !in already ==> AllFound(dest.blobs, d.blobsPaths, read[name])))
            && (name !in already && after.error.Some? ==> after.error == Some(MountFailed))
            && (name in already && after.error.Some? ==> after.error == CheckImage(dest, target, strict))
    ensures var after, pending :=
        LoadOneImage(dest, p, zip, d, name, strict, repository), NotTransferredYet(init + [name], already);
            after.error.None? ==>
              && after.images == p.images + [TargetName(name, repository).value]
              && |Targets(pending, repository)| == |pending|
              && Effects(dest, after.steps) == Placed(dest, Targets(pending, repository), Names(pending, read))
  {
    hide ManifestPath, TargetName, LoadOneImage, Readable, Placed, Targets, HasColon, AllFound, CheckImage, Target,
      NewFound;
    var before, pending := NotTransferredYet(init, already), NotTransferredYet(init + [name], already);
    assert (init + [name])[..|init|] == init;
    NewFoundAt(dest.blobs, d.blobsPaths, init, already, read);
    var m := if name in already then Manifest("", []) else read[name];
    OneMoreName(before, name, repository);
    LoadOneExactly(dest, p, zip, d, name, strict, repository, Targets(before, repository), Names(before, read), m);
    if name !in already {
      assert Names(pending, read) == Names(before, read) + [m];
      LengthOf(pending, repository);
    }
  }

  /** The exception is that of the check of some image left out, on the initial destination. */
  predicate FailsCheck(dest: Registry, names: seq<string>, already: seq<string>, strict: bool,
                       repository: Option<string>, error: Option<Error>)
    requires AllNamed(names)
  {
    exists i :: 0 <= i < |names| && CheckGives(dest, names, already, strict, repository, i, error)
  }

  predicate CheckGives(dest: Registry, names: seq<string>, already: seq<string>, strict: bool,
                       repository: Option<string>, i: nat, error: Option<Error>)
    requires AllNamed(names) && i < |names|
  {
    ColonStays(names[i], repository);
    names[i] in already && error == CheckImage(dest, TargetName(names[i], repository).value, strict)
  }

  lemma OneMoreCheck(dest: Registry, names: seq<string>, name: string, already: seq<string>, strict: bool,
                     repository: Option<string>)
    requires AllNamed(names) && HasColon(name)
    ensures AllNamed(names + [name]) && TargetName(name, repository).Some?
    ensures forall error :: FailsCheck(dest, names, already, strict, repository, error) ==>
              FailsCheck(dest, names + [name], already, strict, repository, error)
    ensures name in already ==>
              FailsCheck(dest, names + [name], already, strict, repository,
                         CheckImage(dest, TargetName(name, repository).value, strict))
  {
    hide HasColon, CheckImage, TargetName;
    var all := names + [name];
    assert AllNamed(all);
    ColonStays(name, repository);
    forall error | FailsCheck(dest, names, already, strict, repository, error)
      ensures FailsCheck(dest, all, already, strict, repository, error)
    {
      var i :| 0 <= i < |names| && CheckGives(dest, names, already, strict, repository, i, error);
      assert all[i] == names[i];
      assert CheckGives(dest, all, already, strict, repository, i, error);
    }
    if name in already {
      assert all[|names|] == name;
      assert CheckGives(dest, all, already, strict, repository, |names|,
                        CheckImage(dest, TargetName(name, repository).value, strict));
    }
  }

  lemma {:induction false} LoadImagesExactly(dest: Registry, zip: Zip, d: Descriptor, names: seq<string>,
                                             already: seq<string>, strict: bool, repository: Option<string>,
                                             read: map<string, Manifest>)
    requires AllNamed(names)
    requires forall n :: n in names ==> n in d.manifestsPaths && d.manifestsPaths[n] == PathFor(n, already)
    requires forall n :: n in names && n !in already ==> n in read && Readable(zip, d.blobsPaths, n, read[n])
    ensures var p, pending := LoadImages(dest, zip, d, names, strict, repository), NotTransferredYet(names, already);
            && AllNamed(pending)
            && (p.error.None? <==>
                  && SkipsPass(dest, names, already, strict, repository)
                  && NewFound(dest.blobs, d.blobsPaths, names, already, read))
            && (SkipsPass(dest, names, already, strict, repository) && p.error.Some? ==> p.error == Some(MountFailed))
            && (p.error.Some? ==>
                  p.error == Some(MountFailed) || FailsCheck(dest, names, already, strict, repository, p.error))
            && (p.error.None? ==>
                  && p.images == TargetNames(names, repository)
                  && |Targets(pending, repository)| == |pending|
                  && Effects(dest, p.steps) == Placed(dest, Targets(pending, repository), Names(pending, read)))
    decreases |names|
  {
    hide ManifestPath, SkipsPass, TargetName, LoadOneImage, Readable, Placed, Targets, TargetNames, HasColon, AllFound,
      CheckImage, Target, NewFound, NotTransferredYet, Names, PathFor, FailsCheck;
    var pending := NotTransferredYet(names, already);
    if names == [] {
      NoneLoaded(dest, d, names, already, strict, repository, read);
    } else {
      var n := |names| - 1;
      var init, name := names[..n], names[n];
      assert names == init + [name] && name in names;
      LoadImagesExactly(dest, zip, d, init, already, strict, repository, read);
      OneMoreSkip(dest, init, name, already, strict, repository);
      OneMoreCheck(dest, init, name, already, strict, repository);
      OneMoreFound(dest.blobs, d.blobsPaths, init, name, already, read);
      TargetsOfNew(names, already, repository, Image("", ""));
      var mid := LoadImages(dest, zip, d, init, strict, repository);
      if mid.error.None? {
        OneMoreName(init, name, repository);
        LastImage(dest, mid, zip, d, init, name, already, strict, repository, read);
      }
    }
  }

  lemma NoneLoaded(dest: Registry, d: Descriptor, names: seq<string>, already: seq<string>, strict: bool,
                   repository: Option<string>, read: map<string, Manifest>)
    requires names == []
    ensures var pending := NotTransferredYet(names, already);
            && pending == [] && SkipsPass(dest, names, already, strict, repository)
            && NewFound(dest.blobs, d.blobsPaths, names, already, read)
            && TargetNames(names, repository) == [] && Targets(pending, repository) == []
            && Placed(dest, Targets(pending, repository), Names(pending, read)) == dest
  {
  }

  lemma NewFoundAt(blobs: set<Blob>, paths: map<Digest, Location>, names: seq<string>, already: seq<string>,
                   read: map<string, Manifest>)
    requires forall n :: n in names && n !in already ==> n in read
    requires NewFound(blobs, paths, names, already, read)
    ensures var ms := Names(NotTransferredYet(names, already), read);
            forall i :: 0 <= i < |ms| ==> AllFound(blobs, paths, ms[i])
  {
    hide AllFound;
    var pending := NotTransferredYet(names, already);
    forall i | 0 <= i < |pending| ensures AllFound(blobs, paths, read[pending[i]]) {
      assert pending[i] in names && pending[i] !in already;
      var j :| 0 <= j < |names| && names[j] == pending[i];
    }
  }

  /* ---------- the whole payload ---------- */

  /** The manifest fetched for image `i`. */
  function Fetched(source: Registry, names: seq<string>, i: nat): Manifest
    requires i < |names| && GetManifests(source, names).Ok?
  {
    GetManifests(source, names).value[i].manifest
  }

  lemma FetchedNames(source: Registry, names: seq<string>)
    requires GetManifests(source, names).Ok?
    ensures AllNamed(names)
    ensures forall i :: 0 <= i < |names| ==> HasColon(GetManifests(source, names).value[i].name)
  {
  }

  /** Every digest of a new image is in the descriptor, located in a repository exactly when some image already
      transferred has it. */
  lemma DigestPlaced(source: Registry, pending: seq<string>, already: seq<string>, k: nat, d: Digest)
    requires GetManifests(source, pending).Ok? && GetManifests(source, already).Ok? && k < |pending|
    requires AddBlobs(source, AllBlobs(GetManifests(source, pending).value),
                      AllBlobs(GetManifests(source, already).value)).Ok?
    requires d in GetListOfBlobs(Fetched(source, pending, k))
    ensures var pull, there :=
        AllBlobs(GetManifests(source, pending).value), AllBlobs(GetManifests(source, already).value);
            var added := AddBlobs(source, pull, there).value;
            && d in added.paths
            && (added.paths[d].InRegistry? <==> d in DigestsOf(there))
            && (added.paths[d].InRegistry? ==> FirstWithDigest(there, Blob(added.paths[d].repository, d)))
            && (added.paths[d].InZip? ==> added.paths[d] == InZip(BlobPath(d)) && d in added.written)
  {
    hide AddBlobs, AllBlobs, GetListOfBlobs, BlobPath;
    var ms := GetManifests(source, pending).value;
    var pull, there := AllBlobs(ms), AllBlobs(GetManifests(source, already).value);
    FetchedNames(source, pending);
    PayloadCompleteAndMinimal(source, pull, there);
    var b := Blob(GetRepoAndTag(pending[k]).value.repository, d);
    FetchedBlobs(ms, b);
    assert BlobOf(ms[k], b);
    var j :| 0 <= j < |pull| && pull[j] == b;
    assert d in DigestsOf(pull);
  }

  lemma Unpacked(source: Registry, names: seq<string>, already: seq<string>)
    requires Encode(source, names, already).Ok?
    ensures GetManifests(source, Pending(names, already)).Ok? && GetManifests(source, already).Ok?
    ensures AllNamed(Keys(names)) && AllNamed(Pending(names, already))
  {
    hide AddBlobs, AllBlobs;
    var pending := Pending(names, already);
    FetchedNames(source, pending);
    FetchedNames(source, already);
    forall i | 0 <= i < |Keys(names)| ensures HasColon(Keys(names)[i]) {
      var n := Keys(names)[i];
      assert n in names;
      assert n in already || n in pending;
    }
  }

  /** The manifests the decoder puts, one per image not yet transferred. */
  function PutManifests(source: Registry, pending: seq<string>): (ms: seq<Manifest>)
    requires GetManifests(source, pending).Ok?
    ensures |ms| == |pending|
  {
    seq(|pending|, i requires 0 <= i < |pending| => Fetched(source, pending, SamePath(pending, i)))
  }

  /** The same, by image name. */
  function ReadMap(source: Registry, pending: seq<string>): map<string, Manifest>
    requires GetManifests(source, pending).Ok?
  {
    map n | n in pending :: PutManifests(source, pending)[LastIndex(pending, n)]
  }

  lemma ReadMapNames(source: Registry, pending: seq<string>)
    requires GetManifests(source, pending).Ok?
    ensures Names(pending, ReadMap(source, pending)) == PutManifests(source, pending)
  {
    hide GetManifests;
    forall i | 0 <= i < |pending| ensures ReadMap(source, pending)[pending[i]] == PutManifests(source, pending)[i] {
      assert Paths(pending)[LastIndex(pending, pending[i])] == Paths(pending)[i];
    }
  }

  /** The descriptor written at the end of the archive. */
  function FinalDescriptor(source: Registry, names: seq<string>, already: seq<string>): Descriptor
    requires Encode(source, names, already).Ok?
  {
    var fetched, there := GetManifests(source, Pending(names, already)).value, GetManifests(source, already).value;
    FromImages(names, already).(blobsPaths := AddBlobs(source, AllBlobs(fetched), AllBlobs(there)).value.paths)
  }

  lemma PayloadReadable(source: Registry, names: seq<string>, already: seq<string>)
    requires Encode(source, names, already).Ok?
    ensures GetManifests(source, Pending(names, already)).Ok?
    ensures var zip, d := Encode(source, names, already).value, FinalDescriptor(source, names, already);
            var read := ReadMap(source, Pending(names, already));
            && Lookup(zip, DESCRIPTOR_PATH) == Some(DescriptorEntry(d))
            && forall n :: n in Pending(names, already) ==> Readable(zip, d.blobsPaths, n, read[n])
  {
    hide AddBlobs, AllBlobs, Lookup, ManifestPath, BlobPath, DESCRIPTOR_PATH, BlobMembers, ManifestMembers,
      GetListOfBlobs, SamePath, NotTransferredYet, GetManifests, PathFor, DigestsOf;
    Unpacked(source, names, already);
    var pending, zip := Pending(names, already), Encode(source, names, already).value;
    var ms, there := GetManifests(source, pending).value, GetManifests(source, already).value;
    var added := AddBlobs(source, AllBlobs(ms), AllBlobs(there)).value;
    ZipReads(added.written, ms, pending, FinalDescriptor(source, names, already));
    forall n | n in pending ensures Readable(zip, added.paths, n, ReadMap(source, pending)[n]) {
      var k := SamePath(pending, LastIndex(pending, n));
      forall b | b in GetListOfBlobs(ms[k].manifest) ensures Stocked(zip, added.paths, b) {
        DigestPlaced(source, pending, already, k, b);
      }
    }
  }

  /** Every digest the decoder is to mount is, in a destination holding `blobs`, where the descriptor says. */
  predicate MountsFound(source: Registry, names: seq<string>, already: seq<string>, blobs: set<Blob>)
    requires Encode(source, names, already).Ok?
  {
    var pending := Pending(names, already);
    forall k :: 0 <= k < |pending| ==>
      AllFound(blobs, FinalDescriptor(source, names, already).blobsPaths, PutManifests(source, pending)[k])
  }

  lemma MountsFoundByName(source: Registry, names: seq<string>, already: seq<string>, blobs: set<Blob>)
    requires Encode(source, names, already).Ok?
    ensures var paths, read :=
        FinalDescriptor(source, names, already).blobsPaths, ReadMap(source, Pending(names, already));
            MountsFound(source, names, already, blobs) <==> NewFound(blobs, paths, Keys(names), already, read)
  {
    hide AllFound, Encode, PutManifests, GetManifests, FinalDescriptor, Keys, NotTransferredYet;
    Unpacked(source, names, already);
    var pending, read := Pending(names, already), ReadMap(source, Pending(names, already));
    var paths := FinalDescriptor(source, names, already).blobsPaths;
    ReadMapNames(source, pending);
    assert forall k :: 0 <= k < |pending| ==> Names(pending, read)[k] == read[pending[k]];
    if MountsFound(source, names, already, blobs) {
      forall i | 0 <= i < |Keys(names)| && Keys(names)[i] !in already
          ensures AllFound(blobs, paths, read[Keys(names)[i]]) {
        assert Keys(names)[i] in pending;
        var k :| 0 <= k < |pending| && pending[k] == Keys(names)[i];
      }
    }
    if NewFound(blobs, paths, Keys(names), already, read) {
      forall k | 0 <= k < |pending| ensures AllFound(blobs, paths, PutManifests(source, pending)[k]) {
        assert pending[k] in Keys(names) && pending[k] !in already;
        var i :| 0 <= i < |Keys(names)| && Keys(names)[i] == pending[k];
      }
    }
  }

  /** Whatever the destination, replaying a payload raises exactly when the check of an image left out does, or
      when some digest to mount is not, in the destination as it was, where the descriptor locates it. When it
      does not raise, it yields every image in order and puts manifests as described by `Placed`. */
  lemma ReplayExactly(source: Registry, names: seq<string>, already: seq<string>, dest: Registry, strict: bool,
                      repository: Option<string>)
    requires Encode(source, names, already).Ok?
    ensures GetManifests(source, Pending(names, already)).Ok?
    ensures AllNamed(Keys(names)) && AllNamed(Pending(names, already))
    ensures var p := LoadZipImages(dest, Encode(source, names, already).value, strict, repository);
            var skips := SkipsPass(dest, Keys(names), already, strict, repository);
            && (p.error.None? <==> skips && MountsFound(source, names, already, dest.blobs))
            && (skips && p.error.Some? ==> p.error == Some(MountFailed))
            && (p.error.Some? ==>
                  p.error == Some(MountFailed) || FailsCheck(dest, Keys(names), already, strict, repository, p.error))
    ensures var p := LoadZipImages(dest, Encode(source, names, already).value, strict, repository);
            var pending := Pending(names, already);
            p.error.None? ==>
              && p.images == TargetNames(Keys(names), repository)
              && Effects(dest, p.steps) == Placed(dest, Targets(pending, repository), PutManifests(source, pending))
  {
    hide AddBlobs, AllBlobs, Lookup, DESCRIPTOR_PATH, SkipsPass, Readable, BlobMembers, ManifestMembers, LoadImages,
      Placed, Targets, TargetNames, Effects, PutManifests, Encode, GetManifests, PathFor, AllNamed, Names, Keys,
      NewFound, MountsFound, FailsCheck;
    Unpacked(source, names, already);
    PayloadReadable(source, names, already);
    ReadMapNames(source, Pending(names, already));
    MountsFoundByName(source, names, already, dest.blobs);
    var d, read := FinalDescriptor(source, names, already), ReadMap(source, Pending(names, already));
    LoadImagesExactly(dest, Encode(source, names, already).value, d, Keys(names), already, strict, repository, read);
  }
}
