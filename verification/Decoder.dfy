/** backend/image_transfer/decoder.py: replays a payload into a destination registry. The registry side is
    that of the OCI Distribution Specification v1.1, sections "Pushing Blobs", "Mounting a blob from another
    repository" and "Pushing Manifests"; a mount whose source lacks the blob raises. */
module Decoder {
  import opened Common
  import opened ImageNames
  import opened Encoder

  /* ---------- steps on the destination ---------- */

  datatype Step =
    | PushBlob(blob: Blob)
    | MountBlob(source: string, blob: Blob)
    | SetManifest(image: Image, manifest: Manifest)

  function Effect(r: Registry, s: Step): Registry {
    match s
    case PushBlob(blob) => r.(blobs := r.blobs + {blob})
    case MountBlob(_, blob) => r.(blobs := r.blobs + {blob})
    case SetManifest(image, manifest) => r.(manifests := r.manifests[image := Single(manifest)])
  }

  function Effects(r: Registry, steps: seq<Step>): Registry {
    if steps == [] then r else Effect(Effects(r, steps[..|steps| - 1]), steps[|steps| - 1])
  }

  lemma {:induction false} EffectsConcat(r: Registry, a: seq<Step>, b: seq<Step>)
    ensures Effects(r, a + b) == Effects(Effects(r, a), b)
    decreases |b|
  {
    if b == [] {
      assert a + b == a;
    } else {
      assert (a + b)[..|a + b| - 1] == a + b[..|b| - 1];
      EffectsConcat(r, a, b[..|b| - 1]);
    }
  }

  /** How far the decoder got: the steps done, the images yielded, and the exception that stopped it. */
  datatype Progress = Progress(steps: seq<Step>, images: seq<string>, error: Option<Error>)

  /* ---------- push_all_blobs_from_manifest ---------- */

  function PushOneBlob(dest: Registry, p: Progress, zip: Zip, repository: string, d: Digest,
                       paths: map<Digest, Location>): Progress {
    if d !in paths then p.(error := Some(MissingEntry))
    else
      match paths[d]
      case InZip(path) =>
        var entry := Lookup(zip, path);
        if entry.None? then p.(error := Some(MissingEntry))
        else if entry.value != BlobEntry(d) then p.(error := Some(BadContent))
        else p.(steps := p.steps + [PushBlob(Blob(repository, d))])
      case InRegistry(source) =>
        if Blob(source, d) !in Effects(dest, p.steps).blobs then p.(error := Some(MountFailed))
        else p.(steps := p.steps + [MountBlob(source, Blob(repository, d))])
  }

  function PushBlobs(dest: Registry, p: Progress, zip: Zip, repository: string, digests: seq<Digest>,
                     paths: map<Digest, Location>): Progress
  {
    if digests == [] then p
    else
      var before := PushBlobs(dest, p, zip, repository, digests[..|digests| - 1], paths);
      if before.error.Some? then before
      else PushOneBlob(dest, before, zip, repository, digests[|digests| - 1], paths)
  }

  /* ---------- load_single_image_from_zip_in_registry ---------- */

  function LoadSingleImage(dest: Registry, p: Progress, zip: Zip, name: string, path: string,
                           paths: map<Digest, Location>): Progress {
    var entry := Lookup(zip, path);
    if entry.None? then p.(error := Some(MissingEntry))
    else if !entry.value.ManifestEntry? then p.(error := Some(BadContent))
    else if !HasColon(name) then p.(error := Some(BadName))
    else
      var image, m := GetRepoAndTag(name).value, entry.value.manifest;
      var pushed := PushBlobs(dest, p, zip, image.repository, GetListOfBlobs(m), paths);
      if pushed.error.Some? then pushed
      else pushed.(steps := pushed.steps + [SetManifest(image, m)])
  }

  /** check_if_the_docker_image_is_in_the_registry: `None` also when it only warns. */
  function CheckImage(r: Registry, name: string, strict: bool): Option<Error> {
    if !HasColon(name) then Some(BadName)
    else
      var image := GetRepoAndTag(name).value;
      if image !in r.manifests then if strict then Some(ManifestNotFoundError) else None
      else if r.manifests[image].Blocked? then Some(PreconditionFailed)
      else None
  }

  /* ---------- load_zip_images_in_registry ---------- */

  /** The name of an image in the destination, with the repository override. */
  function TargetName(name: string, repository: Option<string>): Option<string> {
    if repository.None? then Some(name)
    else if !HasColon(name) then None
    else Some(repository.value + ":" + GetRepoAndTag(name).value.tag)
  }

  function LoadOneImage(dest: Registry, p: Progress, zip: Zip, d: Descriptor, name: string, strict: bool,
                        repository: Option<string>): Progress
  {
    var target := TargetName(name, repository);
    if target.None? then p.(error := Some(BadName))
    else if name !in d.manifestsPaths then p.(error := Some(MissingEntry))
    else
      var loaded :=
        if d.manifestsPaths[name].None? then p.(error := CheckImage(Effects(dest, p.steps), target.value, strict))
        else LoadSingleImage(dest, p, zip, target.value, d.manifestsPaths[name].value, d.blobsPaths);
      if loaded.error.Some? then loaded else loaded.(images := loaded.images + [target.value])
  }

  function LoadImages(dest: Registry, zip: Zip, d: Descriptor, names: seq<string>, strict: bool,
                      repository: Option<string>): Progress {
    if names == [] then Progress([], [], None)
    else
      var before := LoadImages(dest, zip, d, names[..|names| - 1], strict, repository);
      if before.error.Some? then before
      else LoadOneImage(dest, before, zip, d, names[|names| - 1], strict, repository)
  }

  function LoadZipImages(dest: Registry, zip: Zip, strict: bool, repository: Option<string>): Progress {
    var entry := Lookup(zip, DESCRIPTOR_PATH);
    if entry.None? then Progress([], [], Some(MissingEntry))
    else if !entry.value.DescriptorEntry? then Progress([], [], Some(BadContent))
    else LoadImages(dest, zip, entry.value.descriptor, entry.value.descriptor.images, strict, repository)
  }

  /* ---------- the destination, step by step ---------- */

  /** The destination registry; `log` records every write. */
  class DestinationRegistry {
    var manifests: map<Image, Content>
    var blobs: set<Blob>
    ghost const start: Registry
    ghost var log: seq<Step>

    constructor (r: Registry)
      ensures State() == r && start == r && log == [] && Valid()
    {
      manifests, blobs, start, log := r.manifests, r.blobs, r, [];
    }

    function State(): Registry
      reads this
    {
      Registry(manifests, blobs)
    }

    ghost predicate Valid()
      reads this
    {
      State() == Effects(start, log)
    }

    method Push(blob: Blob)
      requires Valid()
      modifies this
      ensures Valid() && log == old(log) + [PushBlob(blob)]
    {
      blobs := blobs + {blob};
      EffectsConcat(start, log, [PushBlob(blob)]);
      log := log + [PushBlob(blob)];
    }

    method Mount(source: string, blob: Blob) returns (ok: bool)
      requires Valid()
      modifies this
      ensures ok == (Blob(source, blob.digest) in old(blobs))
      ensures Valid() && log == if ok then old(log) + [MountBlob(source, blob)] else old(log)
    {
      ok := Blob(source, blob.digest) in blobs;
      if ok {
        blobs := blobs + {blob};
        EffectsConcat(start, log, [MountBlob(source, blob)]);
        log := log + [MountBlob(source, blob)];
      }
    }

    method PutManifest(image: Image, manifest: Manifest)
      requires Valid()
      modifies this
      ensures Valid() && log == old(log) + [SetManifest(image, manifest)]
    {
      manifests := manifests[image := Single(manifest)];
      EffectsConcat(start, log, [SetManifest(image, manifest)]);
      log := log + [SetManifest(image, manifest)];
    }

    method PushAllBlobsFromManifest(zip: Zip, repository: string, manifest: Manifest, paths: map<Digest, Location>,
                                    ghost images: seq<string>)
      returns (error: Option<Error>)
      requires Valid()
      modifies this
      ensures Valid()
      ensures Progress(log, images, error)
           == PushBlobs(start, Progress(old(log), images, None), zip, repository, GetListOfBlobs(manifest), paths)
    {
      var digests := GetListOfBlobs(manifest);
      ghost var p := Progress(log, images, None);
      for i := 0 to |digests|
        invariant Valid()
        invariant Progress(log, images, None) == PushBlobs(start, p, zip, repository, digests[..i], paths)
      {
        PushBlobsStep(start, p, zip, repository, digests, i, paths);
        var digest := digests[i];
        if digest !in paths {
          return Some(MissingEntry);
        }
        match paths[digest] {
          case InZip(path) =>
            var entry := Lookup(zip, path);
            if entry.None? {
              return Some(MissingEntry);
            }
            if entry.value != BlobEntry(digest) {
              return Some(BadContent);
            }
            Push(Blob(repository, digest));
          case InRegistry(source) =>
            var ok := Mount(source, Blob(repository, digest));
            if !ok {
              return Some(MountFailed);
            }
        }
      }
      assert digests[..|digests|] == digests;
      error := None;
    }

    method LoadSingleImageFromZip(zip: Zip, name: string, path: string, paths: map<Digest, Location>,
                                  ghost images: seq<string>)
      returns (error: Option<Error>)
      requires Valid()
      modifies this
      ensures Valid()
      ensures Progress(log, images, error)
          == LoadSingleImage(start, Progress(old(log), images, None), zip, name, path, paths)
    {
      var entry := Lookup(zip, path);
      if entry.None? {
        return Some(MissingEntry);
      }
      if !entry.value.ManifestEntry? {
        return Some(BadContent);
      }
      if !HasColon(name) {
        return Some(BadName);
      }
      var image, m := GetRepoAndTag(name).value, entry.value.manifest;
      error := PushAllBlobsFromManifest(zip, image.repository, m, paths, images);
      if error.None? {
        PutManifest(image, m);
      }
    }

    method LoadZipImagesInRegistry(zip: Zip, strict: bool, repository: Option<string>)
      returns (images: seq<string>, error: Option<Error>)
      requires Valid() && log == []
      modifies this
      ensures Valid()
      ensures Progress(log, images, error) == LoadZipImages(start, zip, strict, repository)
    {
      images := [];
      var entry := Lookup(zip, "payload_descriptor.json");
      if entry.None? {
        return images, Some(MissingEntry);
      }
      if !entry.value.DescriptorEntry? {
        return images, Some(BadContent);
      }
      var d := entry.value.descriptor;
      for i := 0 to |d.images|
        invariant Valid()
        invariant Progress(log, images, None) == LoadImages(start, zip, d, d.images[..i], strict, repository)
      {
        LoadImagesStep(start, zip, d, d.images, i, strict, repository);
        var name := d.images[i];
        var target := name;
        if repository.Some? {
          if !HasColon(name) {
            return images, Some(BadName);
          }
          target := repository.value + ":" + GetRepoAndTag(name).value.tag;
        }
        if name !in d.manifestsPaths {
          return images, Some(MissingEntry);
        }
        if d.manifestsPaths[name].None? {
          error := CheckImage(State(), target, strict);
        } else {
          error := LoadSingleImageFromZip(zip, target, d.manifestsPaths[name].value, d.blobsPaths, images);
        }
        if error.Some? {
          return;
        }
        images := images + [target];
      }
      assert d.images[..|d.images|] == d.images;
      error := None;
    }
  }

  lemma {:induction false} PushBlobsErrorStays(dest: Registry, p: Progress, zip: Zip, repository: string,
                                               digests: seq<Digest>, paths: map<Digest, Location>, n: nat)
    requires n <= |digests| && PushBlobs(dest, p, zip, repository, digests[..n], paths).error.Some?
    ensures PushBlobs(dest, p, zip, repository, digests, paths)
        == PushBlobs(dest, p, zip, repository, digests[..n], paths)
    decreases |digests|
  {
    if n == |digests| {
      assert digests[..n] == digests;
    } else {
      var init := digests[..|digests| - 1];
      assert init[..n] == digests[..n];
      PushBlobsErrorStays(dest, p, zip, repository, init, paths, n);
    }
  }

  /** The next blob continues the push, and its exception ends it. */
  lemma PushBlobsStep(dest: Registry, p: Progress, zip: Zip, repository: string, digests: seq<Digest>, i: nat,
                      paths: map<Digest, Location>)
    requires i < |digests| && PushBlobs(dest, p, zip, repository, digests[..i], paths).error.None?
    ensures var before := PushBlobs(dest, p, zip, repository, digests[..i], paths);
            var after := PushOneBlob(dest, before, zip, repository, digests[i], paths);
            && PushBlobs(dest, p, zip, repository, digests[..i + 1], paths) == after
            && (after.error.Some? ==> PushBlobs(dest, p, zip, repository, digests, paths) == after)
  {
    assert digests[..i + 1][..i] == digests[..i];
    if PushBlobs(dest, p, zip, repository, digests[..i + 1], paths).error.Some? {
      PushBlobsErrorStays(dest, p, zip, repository, digests, paths, i + 1);
    }
  }

  lemma {:induction false} LoadImagesErrorStays(dest: Registry, zip: Zip, d: Descriptor, names: seq<string>,
                                                strict: bool, repository: Option<string>, n: nat)
    requires n <= |names| && LoadImages(dest, zip, d, names[..n], strict, repository).error.Some?
    ensures LoadImages(dest, zip, d, names, strict, repository)
        == LoadImages(dest, zip, d, names[..n], strict, repository)
    decreases |names|
  {
    if n == |names| {
      assert names[..n] == names;
    } else {
      var init := names[..|names| - 1];
      assert init[..n] == names[..n];
      LoadImagesErrorStays(dest, zip, d, init, strict, repository, n);
    }
  }

  lemma LoadImagesStep(dest: Registry, zip: Zip, d: Descriptor, names: seq<string>, i: nat, strict: bool,
                       repository: Option<string>)
    requires i < |names| && LoadImages(dest, zip, d, names[..i], strict, repository).error.None?
    ensures var before := LoadImages(dest, zip, d, names[..i], strict, repository);
            var after := LoadOneImage(dest, before, zip, d, names[i], strict, repository);
            && LoadImages(dest, zip, d, names[..i + 1], strict, repository) == after
            && (after.error.Some? ==> LoadImages(dest, zip, d, names, strict, repository) == after)
  {
    assert names[..i + 1][..i] == names[..i];
    if LoadImages(dest, zip, d, names[..i + 1], strict, repository).error.Some? {
      LoadImagesErrorStays(dest, zip, d, names, strict, repository, i + 1);
    }
  }

  /* ---------- closed at every step ---------- */

  /** After every prefix of the steps, every manifest has all its blobs in its own repository. */
  ghost predicate ClosedThroughout(dest: Registry, steps: seq<Step>) {
    forall i :: 0 <= i <= |steps| ==> Closed(Effects(dest, steps[..i]))
  }

  lemma ClosedOneMore(dest: Registry, steps: seq<Step>, s: Step)
    requires ClosedThroughout(dest, steps) && Closed(Effects(dest, steps + [s]))
    ensures ClosedThroughout(dest, steps + [s])
  {
    forall i | 0 <= i <= |steps| + 1 ensures Closed(Effects(dest, (steps + [s])[..i])) {
      if i <= |steps| {
        assert (steps + [s])[..i] == steps[..i];
      } else {
        assert (steps + [s])[..i] == steps + [s];
      }
    }
  }

  lemma MoreBlobsClosed(r: Registry, s: Step)
    requires Closed(r) && !s.SetManifest?
    ensures Closed(Effect(r, s)) && s.blob in Effect(r, s).blobs && r.blobs <= Effect(r, s).blobs
  {
  }

  lemma SetManifestClosed(r: Registry, image: Image, m: Manifest)
    requires Closed(r) && HasBlobs(r, image.repository, m)
    ensures Closed(Effect(r, SetManifest(image, m)))
  {
  }

  lemma {:induction false} PushBlobsClosed(dest: Registry, p: Progress, zip: Zip, repository: string,
                                           digests: seq<Digest>, paths: map<Digest, Location>)
    requires ClosedThroughout(dest, p.steps) && p.error.None?
    ensures var after := PushBlobs(dest, p, zip, repository, digests, paths);
            && ClosedThroughout(dest, after.steps)
            && (after.error.None? ==> forall d :: d in digests ==>
                 Blob(repository, d) in Effects(dest, after.steps).blobs)
    decreases |digests|
  {
    if digests != [] {
      var init, last := digests[..|digests| - 1], digests[|digests| - 1];
      PushBlobsClosed(dest, p, zip, repository, init, paths);
      var before := PushBlobs(dest, p, zip, repository, init, paths);
      var after := PushBlobs(dest, p, zip, repository, digests, paths);
      if before.error.None? && after.steps != before.steps {
        var s := after.steps[|before.steps|];
        assert after.steps == before.steps + [s] && !s.SetManifest? && s.blob == Blob(repository, last);
        assert before.steps[..|before.steps|] == before.steps;
        EffectsConcat(dest, before.steps, [s]);
        assert Effects(Effects(dest, before.steps), [s]) == Effect(Effects(dest, before.steps), s) by {
          assert [s][..0] == [];
        }
        MoreBlobsClosed(Effects(dest, before.steps), s);
        ClosedOneMore(dest, before.steps, s);
      }
      assert forall d :: d in digests ==> d in init || d == last;
    }
  }

  lemma LoadSingleImageClosed(dest: Registry, p: Progress, zip: Zip, name: string, path: string,
                              paths: map<Digest, Location>)
    requires ClosedThroughout(dest, p.steps) && p.error.None?
    ensures ClosedThroughout(dest, LoadSingleImage(dest, p, zip, name, path, paths).steps)
  {
    var entry := Lookup(zip, path);
    if entry.Some? && entry.value.ManifestEntry? && HasColon(name) {
      var image, m := GetRepoAndTag(name).value, entry.value.manifest;
      PushBlobsClosed(dest, p, zip, image.repository, GetListOfBlobs(m), paths);
      var pushed := PushBlobs(dest, p, zip, image.repository, GetListOfBlobs(m), paths);
      if pushed.error.None? {
        var s := SetManifest(image, m);
        assert pushed.steps[..|pushed.steps|] == pushed.steps;
        EffectsConcat(dest, pushed.steps, [s]);
        assert Effects(Effects(dest, pushed.steps), [s]) == Effect(Effects(dest, pushed.steps), s) by {
          assert [s][..0] == [];
        }
        SetManifestClosed(Effects(dest, pushed.steps), image, m);
        ClosedOneMore(dest, pushed.steps, s);
      }
    }
  }

  lemma {:induction false} LoadImagesClosed(dest: Registry, zip: Zip, d: Descriptor, names: seq<string>, strict: bool,
                                            repository: Option<string>)
    requires Closed(dest)
    ensures ClosedThroughout(dest, LoadImages(dest, zip, d, names, strict, repository).steps)
    decreases |names|
  {
    if names != [] {
      var init, name := names[..|names| - 1], names[|names| - 1];
      LoadImagesClosed(dest, zip, d, init, strict, repository);
      var before := LoadImages(dest, zip, d, init, strict, repository);
      var target := TargetName(name, repository);
      if before.error.None? && target.Some? && name in d.manifestsPaths && d.manifestsPaths[name].Some? {
        LoadSingleImageClosed(dest, before, zip, target.value, d.manifestsPaths[name].value, d.blobsPaths);
      }
    }
  }

  /** Whatever the archive, the override and the outcome, a destination whose manifests have all their blobs
      stays so after each single push, mount and manifest. */
  lemma ClosedAtEveryStep(dest: Registry, zip: Zip, strict: bool, repository: Option<string>)
    requires Closed(dest)
    ensures ClosedThroughout(dest, LoadZipImages(dest, zip, strict, repository).steps)
  {
    var entry := Lookup(zip, DESCRIPTOR_PATH);
    if entry.Some? && entry.value.DescriptorEntry? {
      LoadImagesClosed(dest, zip, entry.value.descriptor, entry.value.descriptor.images, strict, repository);
    }
  }

  /* ---------- in which order ---------- */

  /** The steps that bring these digests to the repository, one each, in order. */
  predicate Brings(steps: seq<Step>, repository: string, digests: seq<Digest>) {
    && |steps| == |digests|
    && forall i :: 0 <= i < |steps| ==> !steps[i].SetManifest? && steps[i].blob == Blob(repository, digests[i])
  }

  lemma {:induction false} PushedInOrder(dest: Registry, p: Progress, zip: Zip, repository: string,
                                         digests: seq<Digest>, paths: map<Digest, Location>)
    requires PushBlobs(dest, p, zip, repository, digests, paths).error.None?
    ensures var steps := PushBlobs(dest, p, zip, repository, digests, paths).steps;
            |steps| >= |p.steps| && steps[..|p.steps|] == p.steps && Brings(steps[|p.steps|..], repository, digests)
    decreases |digests|
  {
    hide Effects, Lookup;
    if digests != [] {
      var n := |digests| - 1;
      PushedInOrder(dest, p, zip, repository, digests[..n], paths);
      var before := PushBlobs(dest, p, zip, repository, digests[..n], paths).steps;
      var steps := PushBlobs(dest, p, zip, repository, digests, paths).steps;
      assert steps == before + [steps[|before|]];
      assert steps[|p.steps|..] == before[|p.steps|..] + [steps[|before|]];
    }
  }

  lemma BringsManifest(steps: seq<Step>, repository: string, m: Manifest)
    requires Brings(steps, repository, GetListOfBlobs(m))
    ensures |steps| == |m.layers| + 1
    ensures Brings(steps[..1], repository, [m.config]) && Brings(steps[1..], repository, m.layers)
  {
    forall i | 0 <= i < |m.layers| ensures !steps[1..][i].SetManifest? {
      assert steps[1..][i] == steps[i + 1] && GetListOfBlobs(m)[i + 1] == m.layers[i];
    }
  }

  /** An image that is loaded gets its configuration first, then its layers in order, and its manifest last. */
  lemma LoadedInOrder(dest: Registry, p: Progress, zip: Zip, name: string, path: string, paths: map<Digest, Location>)
    requires LoadSingleImage(dest, p, zip, name, path, paths).error.None?
    ensures HasColon(name) && Lookup(zip, path).Some? && Lookup(zip, path).value.ManifestEntry?
    ensures var image, m := GetRepoAndTag(name).value, Lookup(zip, path).value.manifest;
            var steps := LoadSingleImage(dest, p, zip, name, path, paths).steps;
            && |steps| == |p.steps| + |m.layers| + 2 && steps[..|p.steps|] == p.steps
            && Brings(steps[|p.steps|..|p.steps| + 1], image.repository, [m.config])
            && Brings(steps[|p.steps| + 1..|steps| - 1], image.repository, m.layers)
            && steps[|steps| - 1] == SetManifest(image, m)
  {
    hide Effects, Lookup, PushBlobs, GetListOfBlobs, GetRepoAndTag, HasColon, Brings;
    var image, m := GetRepoAndTag(name).value, Lookup(zip, path).value.manifest;
    var pushed := PushBlobs(dest, p, zip, image.repository, GetListOfBlobs(m), paths).steps;
    PushedInOrder(dest, p, zip, image.repository, GetListOfBlobs(m), paths);
    BringsManifest(pushed[|p.steps|..], image.repository, m);
    var steps := pushed + [SetManifest(image, m)];
    assert steps[|p.steps|..|p.steps| + 1] == pushed[|p.steps|..][..1];
    assert steps[|p.steps| + 1..|steps| - 1] == pushed[|p.steps|..][1..];
  }

  /* ---------- whatever the archive ---------- */

  /** Some member of the archive has this entry. */
  predicate Holds(zip: Zip, entry: Entry) {
    exists i :: 0 <= i < |zip| && zip[i].entry == entry
  }

  /** A step writes what the archive holds, or what the destination has already. */
  predicate Founded(zip: Zip, before: Registry, s: Step) {
    match s
    case PushBlob(blob) => Holds(zip, BlobEntry(blob.digest))
    case MountBlob(source, blob) => Blob(source, blob.digest) in before.blobs
    case SetManifest(image, manifest) =>
      Holds(zip, ManifestEntry(manifest)) && HasBlobs(before, image.repository, manifest)
  }

  ghost predicate AllFounded(zip: Zip, dest: Registry, steps: seq<Step>) {
    forall i :: 0 <= i < |steps| ==> Founded(zip, Effects(dest, steps[..i]), steps[i])
  }

  lemma FoundedOneMore(zip: Zip, dest: Registry, steps: seq<Step>, s: Step)
    requires AllFounded(zip, dest, steps) && Founded(zip, Effects(dest, steps), s)
    ensures AllFounded(zip, dest, steps + [s])
  {
    hide Founded;
    var all := steps + [s];
    forall i | 0 <= i < |all| ensures Founded(zip, Effects(dest, all[..i]), all[i]) {
      if i < |steps| {
        assert all[..i] == steps[..i];
      } else {
        assert all[..i] == steps;
      }
    }
  }

  lemma {:induction false} LookupHolds(zip: Zip, path: string)
    ensures Lookup(zip, path).Some? ==> Holds(zip, Lookup(zip, path).value)
    decreases |zip|
  {
    if zip != [] {
      var init := zip[..|zip| - 1];
      LookupHolds(init, path);
      if zip[|init|].path == path {
        assert zip[|init|].entry == Lookup(zip, path).value;
      } else if Lookup(init, path).Some? {
        var i :| 0 <= i < |init| && init[i].entry == Lookup(init, path).value;
        assert zip[i].entry == Lookup(zip, path).value;
      }
    }
  }

  lemma PushOneFounded(dest: Registry, p: Progress, zip: Zip, repository: string, d: Digest,
                       paths: map<Digest, Location>)
    requires AllFounded(zip, dest, p.steps) && p.error.None?
    ensures var after := PushOneBlob(dest, p, zip, repository, d, paths);
            && AllFounded(zip, dest, after.steps)
            && (after.error.None? ==>
                  Effects(dest, after.steps).blobs == Effects(dest, p.steps).blobs + {Blob(repository, d)})
  {
    hide AllFounded, Lookup, Holds, Effects;
    var after := PushOneBlob(dest, p, zip, repository, d, paths);
    if after.error.None? {
      var s := after.steps[|p.steps|];
      assert after.steps == p.steps + [s];
      if paths[d].InZip? {
        LookupHolds(zip, paths[d].path);
      }
      FoundedOneMore(zip, dest, p.steps, s);
      EffectOfOne(dest, p.steps, s);
    }
  }

  lemma EffectOfOne(dest: Registry, steps: seq<Step>, s: Step)
    ensures Effects(dest, steps + [s]) == Effect(Effects(dest, steps), s)
  {
    assert (steps + [s])[..|steps|] == steps;
  }

  lemma {:induction false} PushBlobsFounded(dest: Registry, p: Progress, zip: Zip, repository: string,
                                            digests: seq<Digest>, paths: map<Digest, Location>)
    requires AllFounded(zip, dest, p.steps) && p.error.None?
    ensures var after := PushBlobs(dest, p, zip, repository, digests, paths);
            && AllFounded(zip, dest, after.steps)
            && (after.error.None? ==> forall d :: d in digests ==>
                 Blob(repository, d) in Effects(dest, after.steps).blobs)
    decreases |digests|
  {
    hide AllFounded, Effects, PushOneBlob;
    if digests != [] {
      var init, last := digests[..|digests| - 1], digests[|digests| - 1];
      PushBlobsFounded(dest, p, zip, repository, init, paths);
      var before := PushBlobs(dest, p, zip, repository, init, paths);
      if before.error.None? {
        PushOneFounded(dest, before, zip, repository, last, paths);
      }
      assert forall d :: d in digests ==> d in init || d == last;
    }
  }

  lemma LoadSingleImageFounded(dest: Registry, p: Progress, zip: Zip, name: string, path: string,
                               paths: map<Digest, Location>)
    requires AllFounded(zip, dest, p.steps) && p.error.None?
    ensures AllFounded(zip, dest, LoadSingleImage(dest, p, zip, name, path, paths).steps)
  {
    hide AllFounded, Effects, Lookup, Holds, PushBlobs, GetListOfBlobs;
    var entry := Lookup(zip, path);
    LookupHolds(zip, path);
    if entry.Some? && entry.value.ManifestEntry? && HasColon(name) {
      var image, m := GetRepoAndTag(name).value, entry.value.manifest;
      var pushed := PushBlobs(dest, p, zip, image.repository, GetListOfBlobs(m), paths);
      PushBlobsFounded(dest, p, zip, image.repository, GetListOfBlobs(m), paths);
      if pushed.error.None? {
        forall d | d == m.config || d in m.layers
          ensures Blob(image.repository, d) in Effects(dest, pushed.steps).blobs
        {
          ListedBlobs(m, d);
        }
        FoundedOneMore(zip, dest, pushed.steps, SetManifest(image, m));
      }
    }
  }

  lemma {:induction false} LoadImagesFounded(dest: Registry, zip: Zip, d: Descriptor, names: seq<string>, strict: bool,
                                             repository: Option<string>)
    ensures AllFounded(zip, dest, LoadImages(dest, zip, d, names, strict, repository).steps)
    decreases |names|
  {
    hide AllFounded, Effects, Lookup, LoadSingleImage, CheckImage;
    if names == [] {
      NoSteps(zip, dest);
    } else {
      var init, name := names[..|names| - 1], names[|names| - 1];
      LoadImagesFounded(dest, zip, d, init, strict, repository);
      var before := LoadImages(dest, zip, d, init, strict, repository);
      var target := TargetName(name, repository);
      if before.error.None? && target.Some? && name in d.manifestsPaths && d.manifestsPaths[name].Some? {
        LoadSingleImageFounded(dest, before, zip, target.value, d.manifestsPaths[name].value, d.blobsPaths);
      }
    }
  }

  lemma NoSteps(zip: Zip, dest: Registry)
    ensures AllFounded(zip, dest, [])
  {
  }

  /** Whatever the archive, even one that no encoder wrote, and wherever the replay stops: a blob is pushed only
      if the archive holds it under some path, mounted only from where the destination has it by then, and a
      manifest is put only if the archive holds it and all its blobs are in its repository by then. */
  lemma NothingUnfounded(dest: Registry, zip: Zip, strict: bool, repository: Option<string>)
    ensures AllFounded(zip, dest, LoadZipImages(dest, zip, strict, repository).steps)
  {
    hide AllFounded, Lookup;
    NoSteps(zip, dest);
    var entry := Lookup(zip, DESCRIPTOR_PATH);
    if entry.Some? && entry.value.DescriptorEntry? {
      LoadImagesFounded(dest, zip, entry.value.descriptor, entry.value.descriptor.images, strict, repository);
    }
  }
}
