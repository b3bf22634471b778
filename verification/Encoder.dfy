/** backend/image_transfer/encoder.py: packs images of a source registry, leaving out the blobs that the
    destination already has. */
module Encoder {
  import opened Common
  import opened ImageNames

  /* ---------- PayloadDescriptor.from_images ---------- */

  /** The keys of a dictionary filled from the list: first occurrences, in order. */
  function Keys(names: seq<string>): (ks: seq<string>)
    ensures forall x :: x in ks <==> x in names
    ensures forall i, j :: 0 <= i < j < |ks| ==> ks[i] != ks[j]
  {
    if names == [] then []
    else
      var last, before := names[|names| - 1], Keys(names[..|names| - 1]);
      assert names == names[..|names| - 1] + [last];
      if last in before then before else before + [last]
  }

  function PathFor(name: string, already: seq<string>): Option<string> {
    if name in already then None else Some(ManifestPath(name))
  }

  function ManifestsPaths(names: seq<string>, already: seq<string>): map<string, Option<string>> {
    map name | name in names :: PathFor(name, already)
  }

  function FromImages(names: seq<string>, already: seq<string>): Descriptor {
    Descriptor(Keys(names), ManifestsPaths(names, already), map[])
  }

  lemma ManifestsPathsGrow(names: seq<string>, name: string, already: seq<string>)
    ensures ManifestsPaths(names + [name], already) == ManifestsPaths(names, already)[name := PathFor(name, already)]
  {
  }

  lemma NoPaths(already: seq<string>)
    ensures ManifestsPaths([], already) == map[]
  {
  }

  method MakeDescriptor(names: seq<string>, already: seq<string>) returns (d: Descriptor)
    ensures d == FromImages(names, already)
  {
    hide ManifestsPaths, NormalizeName;
    var images: seq<string>, paths: map<string, Option<string>> := [], map[];
    NoPaths(already);
    for i := 0 to |names|
      invariant images == Keys(names[..i])
      invariant paths == ManifestsPaths(names[..i], already)
      invariant forall name :: name in paths <==> name in names[..i]
    {
      var name := names[i];
      assert names[..i + 1] == names[..i] + [name];
      assert names[..i + 1][..i] == names[..i];
      ManifestsPathsGrow(names[..i], name, already);
      if name !in paths {
        images := images + [name];
      }
      if name in already {
        paths := paths[name := None];
      } else {
        paths := paths[name := Some("manifests/" + NormalizeName(name))];
      }
    }
    assert names[..|names|] == names;
    d := Descriptor(images, paths, map[]);
  }

  /** get_images_not_transferred_yet */
  function NotTransferredYet(images: seq<string>, already: seq<string>): (r: seq<string>)
    ensures forall x :: x in r <==> x in images && x !in already
  {
    if images == [] then []
    else
      var last, before := images[|images| - 1], NotTransferredYet(images[..|images| - 1], already);
      assert images == images[..|images| - 1] + [last];
      if last in already then before else before + [last]
  }

  /* ---------- manifests and blobs of a list of images ---------- */

  datatype Named = Named(name: string, manifest: Manifest)

  /** The manifest of an image, or what fetching it raises. */
  function GetManifest(registry: Registry, name: string): Result<Manifest, Error> {
    if !HasColon(name) then Err(BadName)
    else if GetRepoAndTag(name).value !in registry.manifests then Err(NotFound)
    else
      match registry.manifests[GetRepoAndTag(name).value]
      case Single(manifest) => Ok(manifest)
      case SeveralPlatforms => Err(ManifestContentError)
      case Blocked => Err(PreconditionFailed)
  }

  function BlobsIn(name: string, m: Manifest): seq<Blob> {
    seq(|GetListOfBlobs(m)|, i requires 0 <= i < |GetListOfBlobs(m)| =>
      Blob(if HasColon(name) then GetRepoAndTag(name).value.repository else name, GetListOfBlobs(m)[i]))
  }

  function AllBlobs(ms: seq<Named>): seq<Blob> {
    if ms == [] then [] else AllBlobs(ms[..|ms| - 1]) + BlobsIn(ms[|ms| - 1].name, ms[|ms| - 1].manifest)
  }

  predicate AllFetched(registry: Registry, names: seq<string>, ms: seq<Named>) {
    |ms| == |names| &&
    forall i :: 0 <= i < |names| ==> ms[i].name == names[i] && GetManifest(registry, names[i]) == Ok(ms[i].manifest)
  }

  predicate SomeFails(registry: Registry, names: seq<string>) {
    exists i :: 0 <= i < |names| && GetManifest(registry, names[i]).Err?
  }

  /** The manifests in order, or the first exception. */
  function GetManifests(registry: Registry, names: seq<string>): (r: Result<seq<Named>, Error>)
    ensures r.Ok? ==> AllFetched(registry, names, r.value)
    ensures r.Err? ==> SomeFails(registry, names)
  {
    if names == [] then Ok([])
    else
      var n := |names| - 1;
      var before, last := GetManifests(registry, names[..n]), GetManifest(registry, names[n]);
      if before.Err? then
        var i :| 0 <= i < n && GetManifest(registry, names[..n][i]).Err?;
        assert GetManifest(registry, names[i]).Err?;
        before
      else if last.Err? then Err(last.error)
      else Ok(before.value + [Named(names[n], last.value)])
  }

  method GetManifestsAndListOfAllBlobs(registry: Registry, names: seq<string>)
    returns (r: Result<seq<Named>, Error>, blobs: seq<Blob>)
    ensures r == GetManifests(registry, names)
    ensures r.Ok? ==> blobs == AllBlobs(r.value)
  {
    hide GetManifest, BlobsIn;
    var manifests: seq<Named> := [];
    blobs := [];
    for i := 0 to |names|
      invariant GetManifests(registry, names[..i]) == Ok(manifests)
      invariant blobs == AllBlobs(manifests)
    {
      assert names[..i + 1][..i] == names[..i];
      var m := GetManifest(registry, names[i]);
      if m.Err? {
        FirstErrorStays(registry, names, i + 1);
        return Err(m.error), blobs;
      }
      assert (manifests + [Named(names[i], m.value)])[..|manifests|] == manifests;
      manifests := manifests + [Named(names[i], m.value)];
      blobs := blobs + BlobsIn(names[i], m.value);
    }
    assert names[..|names|] == names;
    r := Ok(manifests);
  }

  lemma {:induction false} FirstErrorStays(registry: Registry, names: seq<string>, n: nat)
    requires n <= |names| && GetManifests(registry, names[..n]).Err?
    ensures GetManifests(registry, names) == GetManifests(registry, names[..n])
    decreases |names|
  {
    if n == |names| {
      assert names[..n] == names;
    } else {
      var init := names[..|names| - 1];
      assert init[..n] == names[..n];
      FirstErrorStays(registry, init, n);
    }
  }

  /* ---------- add_blobs_to_zip ---------- */

  /** The blobs' locations, and the digests stored in the archive in writing order. */
  datatype Added = Added(paths: map<Digest, Location>, written: seq<Digest>)

  /** The blob is at position `i` of the list, and no earlier one has its digest. */
  predicate FirstAt(blobs: seq<Blob>, b: Blob, i: nat)
    requires i < |blobs|
  {
    blobs[i] == b && forall j :: 0 <= j < i ==> blobs[j].digest != b.digest
  }

  predicate FirstWithDigest(blobs: seq<Blob>, b: Blob) {
    exists i :: 0 <= i < |blobs| && FirstAt(blobs, b, i)
  }

  /** The first blob of the list with the digest. */
  function GetBlobWithSameDigest(blobs: seq<Blob>, digest: Digest): (r: Option<Blob>)
    ensures r.Some? <==> exists i :: 0 <= i < |blobs| && blobs[i].digest == digest
    ensures r.Some? ==> r.value.digest == digest && FirstWithDigest(blobs, r.value)
  {
    if blobs == [] then None
    else if blobs[0].digest == digest then
      assert FirstAt(blobs, blobs[0], 0);
      Some(blobs[0])
    else
      var later := GetBlobWithSameDigest(blobs[1..], digest);
      assert forall i :: 1 <= i < |blobs| ==> blobs[i] == blobs[1..][i - 1];
      if later.None? then later
      else
        var i :| 0 <= i < |blobs[1..]| && FirstAt(blobs[1..], later.value, i);
        assert FirstAt(blobs, later.value, i + 1);
        later
  }

  function AddBlob(source: Registry, added: Added, blob: Blob, there: seq<Blob>): Result<Added, Error> {
    if blob.digest in added.paths then Ok(added)
    else
      var same := GetBlobWithSameDigest(there, blob.digest);
      if same.Some? then Ok(added.(paths := added.paths[blob.digest := InRegistry(same.value.repository)]))
      else if blob !in source.blobs then Err(BlobNotFound)
      else Ok(Added(added.paths[blob.digest := InZip(BlobPath(blob.digest))], added.written + [blob.digest]))
  }

  function AddBlobs(source: Registry, pull: seq<Blob>, there: seq<Blob>): Result<Added, Error> {
    if pull == [] then Ok(Added(map[], []))
    else
      var before := AddBlobs(source, pull[..|pull| - 1], there);
      if before.Err? then before else AddBlob(source, before.value, pull[|pull| - 1], there)
  }

  lemma {:induction false} AddBlobsErrorStays(source: Registry, pull: seq<Blob>, there: seq<Blob>, n: nat)
    requires n <= |pull| && AddBlobs(source, pull[..n], there).Err?
    ensures AddBlobs(source, pull, there) == AddBlobs(source, pull[..n], there)
    decreases |pull|
  {
    if n == |pull| {
      assert pull[..n] == pull;
    } else {
      var init := pull[..|pull| - 1];
      assert init[..n] == pull[..n];
      AddBlobsErrorStays(source, init, there, n);
    }
  }

  /** The archive being written. */
  class ZipFile {
    var members: Zip

    constructor ()
      ensures members == []
    {
      members := [];
    }

    method Write(path: string, entry: Entry)
      modifies this
      ensures members == old(members) + [Member(path, entry)]
    {
      members := members + [Member(path, entry)];
    }

    method AddBlobsToZip(source: Registry, pull: seq<Blob>, there: seq<Blob>)
      returns (r: Result<map<Digest, Location>, Error>)
      modifies this
      ensures match AddBlobs(source, pull, there)
              case Ok(added) => r == Ok(added.paths) && members == old(members) + BlobMembers(added.written)
              case Err(error) => r == Err(error)
    {
      var paths: map<Digest, Location> := map[];
      ghost var written: seq<Digest> := [];
      assert members == old(members) + BlobMembers(written);
      for i := 0 to |pull|
        invariant AddBlobs(source, pull[..i], there) == Ok(Added(paths, written))
        invariant members == old(members) + BlobMembers(written)
      {
        assert pull[..i + 1][..i] == pull[..i];
        var blob := pull[i];
        if blob.digest in paths {
          continue;
        }
        var same := FindBlobWithSameDigest(there, blob.digest);
        if same.Some? {
          paths := paths[blob.digest := InRegistry(same.value.repository)];
          continue;
        }
        if blob !in source.blobs {
          AddBlobsErrorStays(source, pull, there, i + 1);
          return Err(BlobNotFound);
        }
        Write("blobs/" + blob.digest, BlobEntry(blob.digest));
        assert BlobMembers(written + [blob.digest])
            == BlobMembers(written) + [Member(BlobPath(blob.digest), BlobEntry(blob.digest))];
        paths := paths[blob.digest := InZip("blobs/" + blob.digest)];
        written := written + [blob.digest];
      }
      assert pull[..|pull|] == pull;
      r := Ok(paths);
    }

    /** create_zip_from_docker_images */
    method CreateZipFromDockerImages(source: Registry, names: seq<string>, already: seq<string>)
      returns (error: Option<Error>)
      requires members == []
      modifies this
      ensures match Encode(source, names, already)
              case Ok(zip) => error == None && members == zip
              case Err(e) => error == Some(e)
    {
      hide AddBlobs, AllBlobs, BlobMembers, ManifestMembers, GetManifest, Keys;
      var descriptor := MakeDescriptor(names, already);
      var fetched, pull := GetManifestsAndListOfAllBlobs(source, NotTransferredYet(descriptor.images, already));
      if fetched.Err? {
        return Some(fetched.error);
      }
      var there, blobsAlreadyTransferred := GetManifestsAndListOfAllBlobs(source, already);
      if there.Err? {
        return Some(there.error);
      }
      var added := AddBlobsToZip(source, pull, blobsAlreadyTransferred);
      if added.Err? {
        return Some(added.error);
      }
      descriptor := descriptor.(blobsPaths := added.value);
      WriteManifests(fetched.value, descriptor.manifestsPaths);
      Write("payload_descriptor.json", DescriptorEntry(descriptor));
      error := None;
    }

    method WriteManifests(manifests: seq<Named>, paths: map<string, Option<string>>)
      requires forall i :: 0 <= i < |manifests| ==>
                 manifests[i].name in paths && paths[manifests[i].name] == Some(ManifestPath(manifests[i].name))
      modifies this
      ensures members == old(members) + ManifestMembers(manifests)
    {
      for i := 0 to |manifests|
        invariant members == old(members) + ManifestMembers(manifests[..i])
      {
        var dest := paths[manifests[i].name];
        Write(dest.value, ManifestEntry(manifests[i].manifest));
        assert ManifestMembers(manifests[..i + 1])
            == ManifestMembers(manifests[..i])
                + [Member(ManifestPath(manifests[i].name), ManifestEntry(manifests[i].manifest))];
      }
      assert manifests[..|manifests|] == manifests;
    }
  }

  method FindBlobWithSameDigest(blobs: seq<Blob>, digest: Digest) returns (r: Option<Blob>)
    ensures r == GetBlobWithSameDigest(blobs, digest)
  {
    for i := 0 to |blobs|
      invariant GetBlobWithSameDigest(blobs, digest) == GetBlobWithSameDigest(blobs[i..], digest)
    {
      if blobs[i].digest == digest {
        return Some(blobs[i]);
      }
      assert blobs[i..][1..] == blobs[i + 1..];
    }
    r := None;
  }

  function BlobMembers(written: seq<Digest>): Zip {
    seq(|written|, i requires 0 <= i < |written| => Member(BlobPath(written[i]), BlobEntry(written[i])))
  }

  function ManifestMembers(ms: seq<Named>): Zip {
    seq(|ms|, i requires 0 <= i < |ms| => Member(ManifestPath(ms[i].name), ManifestEntry(ms[i].manifest)))
  }

  /** The whole payload: the blobs, the manifests of the images to transfer, the descriptor. */
  function Encode(source: Registry, names: seq<string>, already: seq<string>): Result<Zip, Error> {
    var descriptor := FromImages(names, already);
    var fetched := GetManifests(source, NotTransferredYet(descriptor.images, already));
    if fetched.Err? then Err(fetched.error)
    else
      var there := GetManifests(source, already);
      if there.Err? then Err(there.error)
      else
        var added := AddBlobs(source, AllBlobs(fetched.value), AllBlobs(there.value));
        if added.Err? then Err(added.error)
        else
          Ok(BlobMembers(added.value.written) + ManifestMembers(fetched.value)
             + [Member(DESCRIPTOR_PATH, DescriptorEntry(descriptor.(blobsPaths := added.value.paths)))])
  }

  /* ---------- what is packed ---------- */

  function DigestsOf(blobs: seq<Blob>): set<Digest> {
    set i | 0 <= i < |blobs| :: blobs[i].digest
  }

  /** Where each digest of `wanted` is: stored in the archive, once, exactly when `there` has no such blob, and
      otherwise in the repository of the first one that has. */
  ghost predicate CompleteAndMinimal(added: Added, wanted: set<Digest>, there: seq<Blob>) {
    && added.paths.Keys == wanted
    && (forall d :: d in added.written <==> d in wanted && d !in DigestsOf(there))
    && (forall i, j :: 0 <= i < j < |added.written| ==> added.written[i] != added.written[j])
    && (forall d :: d in added.paths ==>
          if d in DigestsOf(there) then
            added.paths[d].InRegistry? && FirstWithDigest(there, Blob(added.paths[d].repository, d))
          else added.paths[d] == InZip(BlobPath(d)))
  }

  lemma AddBlobExact(source: Registry, before: Added, wanted: set<Digest>, blob: Blob, there: seq<Blob>)
    requires CompleteAndMinimal(before, wanted, there) && AddBlob(source, before, blob, there).Ok?
    ensures CompleteAndMinimal(AddBlob(source, before, blob, there).value, wanted + {blob.digest}, there)
  {
    hide BlobPath, GetBlobWithSameDigest;
    var same := GetBlobWithSameDigest(there, blob.digest);
    assert blob.digest in DigestsOf(there) <==> same.Some?;
    assert same.Some? ==> same.value == Blob(same.value.repository, blob.digest);
  }

  /** Every digest of the images to transfer has a location; it is stored in the archive, once, exactly when no
      image already transferred has it. */
  lemma {:induction false} PayloadCompleteAndMinimal(source: Registry, pull: seq<Blob>, there: seq<Blob>)
    requires AddBlobs(source, pull, there).Ok?
    ensures CompleteAndMinimal(AddBlobs(source, pull, there).value, DigestsOf(pull), there)
    decreases |pull|
  {
    hide AddBlob;
    if pull == [] {
      assert CompleteAndMinimal(Added(map[], []), {}, there);
    } else {
      var init, last := pull[..|pull| - 1], pull[|pull| - 1];
      PayloadCompleteAndMinimal(source, init, there);
      AddBlobExact(source, AddBlobs(source, init, there).value, DigestsOf(init), last, there);
      assert DigestsOf(pull) == DigestsOf(init) + {last.digest};
    }
  }

  /** Packing fails only for an image that cannot be fetched or a blob missing in the source: with a closed
      source, exactly when an image cannot be fetched. */
  lemma {:induction false} AddBlobsSucceeds(source: Registry, pull: seq<Blob>, there: seq<Blob>)
    requires forall i :: 0 <= i < |pull| ==> pull[i] in source.blobs
    ensures AddBlobs(source, pull, there).Ok?
    decreases |pull|
  {
    if pull != [] {
      AddBlobsSucceeds(source, pull[..|pull| - 1], there);
    }
  }

  /** Every manifest of the registry has all its blobs in its own repository. */
  predicate Closed(registry: Registry) {
    forall image :: image in registry.manifests && registry.manifests[image].Single? ==>
      HasBlobs(registry, image.repository, registry.manifests[image].manifest)
  }

  predicate HasBlobs(registry: Registry, repository: string, m: Manifest) {
    Blob(repository, m.config) in registry.blobs && forall d :: d in m.layers ==> Blob(repository, d) in registry.blobs
  }

  predicate BlobOf(n: Named, b: Blob) {
    HasColon(n.name) && b.repository == GetRepoAndTag(n.name).value.repository && b.digest in GetListOfBlobs(n.manifest)
  }

  lemma BlobsOfImage(n: Named, b: Blob)
    requires HasColon(n.name)
    ensures b in BlobsIn(n.name, n.manifest) <==> BlobOf(n, b)
  {
    var digests := GetListOfBlobs(n.manifest);
    if b in BlobsIn(n.name, n.manifest) {
      var j :| 0 <= j < |digests| && BlobsIn(n.name, n.manifest)[j] == b;
      assert digests[j] == b.digest;
    }
    if BlobOf(n, b) {
      var j :| 0 <= j < |digests| && digests[j] == b.digest;
      assert BlobsIn(n.name, n.manifest)[j] == b;
    }
  }

  /** The image at position `i` has the blob, and no earlier one has its digest. */
  predicate FirstListing(ms: seq<Named>, b: Blob, i: nat)
    requires i < |ms|
  {
    BlobOf(ms[i], b) && forall j :: 0 <= j < i ==> b.digest !in GetListOfBlobs(ms[j].manifest)
  }

  /** The first blob with a digest, over all images in order, is a blob of the first image that lists it. */
  lemma {:induction false} FirstBlobListed(ms: seq<Named>, b: Blob)
    requires (forall i :: 0 <= i < |ms| ==> HasColon(ms[i].name)) && FirstWithDigest(AllBlobs(ms), b)
    ensures exists i :: 0 <= i < |ms| && FirstListing(ms, b, i)
    decreases |ms|
  {
    hide GetListOfBlobs, BlobsIn, BlobOf;
    var n := |ms| - 1;
    var init, all := ms[..n], AllBlobs(ms);
    var k :| 0 <= k < |all| && FirstAt(all, b, k);
    assert all == AllBlobs(init) + BlobsIn(ms[n].name, ms[n].manifest);
    assert forall j :: 0 <= j < |AllBlobs(init)| ==> all[j] == AllBlobs(init)[j];
    if k < |AllBlobs(init)| {
      assert FirstAt(AllBlobs(init), b, k);
      FirstBlobListed(init, b);
      var i :| 0 <= i < |init| && FirstListing(init, b, i);
      assert FirstListing(ms, b, i);
    } else {
      assert b == BlobsIn(ms[n].name, ms[n].manifest)[k - |AllBlobs(init)|];
      BlobsOfImage(ms[n], b);
      forall j | 0 <= j < n ensures b.digest !in GetListOfBlobs(ms[j].manifest) {
        if b.digest in GetListOfBlobs(ms[j].manifest) {
          EarlierHas(init, j, b.digest);
          assert false;
        }
      }
      assert FirstListing(ms, b, n);
    }
  }

  lemma EarlierHas(ms: seq<Named>, j: nat, d: Digest)
    requires (forall i :: 0 <= i < |ms| ==> HasColon(ms[i].name)) && j < |ms| && d in GetListOfBlobs(ms[j].manifest)
    ensures exists l :: 0 <= l < |AllBlobs(ms)| && AllBlobs(ms)[l].digest == d
  {
    hide AllBlobs, GetListOfBlobs;
    var b := Blob(GetRepoAndTag(ms[j].name).value.repository, d);
    assert BlobOf(ms[j], b);
    FetchedBlobs(ms, b);
    var l :| 0 <= l < |AllBlobs(ms)| && AllBlobs(ms)[l] == b;
  }

  /** The blobs of a list of images are the blobs of each of them. */
  lemma {:induction false} FetchedBlobs(ms: seq<Named>, b: Blob)
    requires forall i :: 0 <= i < |ms| ==> HasColon(ms[i].name)
    ensures b in AllBlobs(ms) <==> exists i :: 0 <= i < |ms| && BlobOf(ms[i], b)
    decreases |ms|
  {
    hide BlobsIn, BlobOf, HasColon;
    if ms != [] {
      var init, n := ms[..|ms| - 1], |ms| - 1;
      FetchedBlobs(init, b);
      BlobsOfImage(ms[n], b);
      if b in AllBlobs(init) {
        var i :| 0 <= i < |init| && BlobOf(init[i], b);
        assert BlobOf(ms[i], b);
      }
      assert b in AllBlobs(ms) <==> b in AllBlobs(init) || b in BlobsIn(ms[n].name, ms[n].manifest);
    }
  }

  lemma ClosedSourceHas(source: Registry, names: seq<string>, b: Blob)
    requires Closed(source) && GetManifests(source, names).Ok? && b in AllBlobs(GetManifests(source, names).value)
    ensures b in source.blobs
  {
    hide AllBlobs, GetListOfBlobs, GetRepoAndTag;
    var ms := GetManifests(source, names).value;
    FetchedBlobs(ms, b);
    var j :| 0 <= j < |ms| && BlobOf(ms[j], b);
    var image := GetRepoAndTag(names[j]).value;
    assert GetManifest(source, names[j]) == Ok(ms[j].manifest);
    ListedBlobs(ms[j].manifest, b.digest);
    assert HasBlobs(source, image.repository, source.manifests[image].manifest);
  }

  /** From a closed source, a payload can be made exactly when every image named can be fetched. */
  lemma EncodeSucceeds(source: Registry, names: seq<string>, already: seq<string>)
    requires Closed(source)
    ensures Encode(source, names, already).Ok? <==>
        forall n :: n in names || n in already ==> GetManifest(source, n).Ok?
  {
    hide GetManifest, AddBlobs, AllBlobs, Closed, BlobMembers, ManifestMembers, DESCRIPTOR_PATH;
    var pending := NotTransferredYet(Keys(names), already);
    var fetched, there := GetManifests(source, pending), GetManifests(source, already);
    if fetched.Ok? && there.Ok? {
      forall n | n in names || n in already ensures GetManifest(source, n).Ok? {
        if n in already {
          var i :| 0 <= i < |already| && already[i] == n;
        } else {
          assert n in pending;
          var i :| 0 <= i < |pending| && pending[i] == n;
        }
      }
      var pull := AllBlobs(fetched.value);
      forall i | 0 <= i < |pull| ensures pull[i] in source.blobs {
        ClosedSourceHas(source, pending, pull[i]);
      }
      AddBlobsSucceeds(source, pull, AllBlobs(there.value));
    } else if fetched.Err? {
      var i :| 0 <= i < |pending| && GetManifest(source, pending[i]).Err?;
      assert pending[i] in Keys(names);
    } else {
      var i :| 0 <= i < |already| && GetManifest(source, already[i]).Err?;
    }
  }
}
