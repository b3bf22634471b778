/** Image names, manifests and the payload archive of backend/image_transfer/common.py. A digest stands for
    the content it identifies, and the descriptor for its own encoding. */
module ImageNames {
  import opened Common

  type Digest = string

  datatype Image = Image(repository: string, tag: string)

  /** A manifest names its configuration blob and its layers. */
  datatype Manifest = Manifest(config: Digest, layers: seq<Digest>)

  datatype Blob = Blob(repository: string, digest: Digest)

  /** What the registry answers for a tag: one manifest, one per platform, or 412 for an image that is not
      scanned yet or has vulnerabilities. */
  datatype Content = Single(manifest: Manifest) | SeveralPlatforms | Blocked

  datatype Registry = Registry(manifests: map<Image, Content>, blobs: set<Blob>)

  datatype Error =
    | BadName
    | NotFound                // 404 on a manifest
    | PreconditionFailed      // 412
    | ManifestContentError
    | BlobNotFound
    | MissingEntry            // in the archive or in the descriptor
    | BadContent
    | MountFailed
    | ManifestNotFoundError

  /** The configuration, then the layers. */
  function GetListOfBlobs(m: Manifest): seq<Digest> {
    [m.config] + m.layers
  }

  lemma ListedBlobs(m: Manifest, d: Digest)
    ensures d in GetListOfBlobs(m) <==> d == m.config || d in m.layers
  {
  }

  predicate HasColon(s: string) {
    ':' in s
  }

  /** `split(":", 1)` into a repository and a tag. */
  function GetRepoAndTag(name: string): (r: Option<Image>)
    ensures r.Some? <==> HasColon(name)
    ensures r.Some? ==> name == r.value.repository + ":" + r.value.tag && !HasColon(r.value.repository)
  {
    if name == "" then None
    else if name[0] == ':' then Some(Image("", name[1..]))
    else
      var rest := GetRepoAndTag(name[1..]);
      if rest.None? then None else Some(Image([name[0]] + rest.value.repository, rest.value.tag))
  }

  lemma {:induction false} RepoAndTagOf(repository: string, tag: string)
    requires !HasColon(repository)
    ensures GetRepoAndTag(repository + ":" + tag) == Some(Image(repository, tag))
  {
    var name := repository + ":" + tag;
    if repository == "" {
      assert name[1..] == tag;
    } else {
      assert name[1..] == repository[1..] + ":" + tag;
      RepoAndTagOf(repository[1..], tag);
      assert [repository[0]] + repository[1..] == repository;
    }
  }

  /** Two names of the same image are the same name. */
  lemma NamesDistinct(a: string, b: string)
    requires HasColon(a) && HasColon(b)
    ensures GetRepoAndTag(a) == GetRepoAndTag(b) ==> a == b
  {
  }

  /** `replace("/", "_")` */
  function NormalizeName(name: string): (r: string)
    ensures |r| == |name|
    ensures forall i :: 0 <= i < |r| ==> r[i] == if name[i] == '/' then '_' else name[i]
  {
    if name == "" then "" else [if name[0] == '/' then '_' else name[0]] + NormalizeName(name[1..])
  }

  function ManifestPath(name: string): string {
    "manifests/" + NormalizeName(name)
  }

  function BlobPath(digest: Digest): string {
    "blobs/" + digest
  }

  const DESCRIPTOR_PATH := "payload_descriptor.json"

  /** Two images share a manifest path exactly when they differ by slashes against underscores only. */
  lemma SameManifestPath(a: string, b: string)
    ensures ManifestPath(a) == ManifestPath(b) <==> NormalizeName(a) == NormalizeName(b)
  {
    assert ManifestPath(a)[|"manifests/"|..] == NormalizeName(a);
    assert ManifestPath(b)[|"manifests/"|..] == NormalizeName(b);
  }

  lemma PathsApart(name: string, digest: Digest, other: Digest)
    ensures ManifestPath(name) != BlobPath(digest)
    ensures ManifestPath(name) != DESCRIPTOR_PATH && BlobPath(digest) != DESCRIPTOR_PATH
    ensures BlobPath(digest) == BlobPath(other) ==> digest == other
  {
    assert ManifestPath(name)[0] == 'm' && BlobPath(digest)[0] == 'b' && DESCRIPTOR_PATH[0] == 'p';
    assert BlobPath(digest)[|"blobs/"|..] == digest && BlobPath(other)[|"blobs/"|..] == other;
  }

  /* ---------- the payload ---------- */

  datatype Location = InZip(path: string) | InRegistry(repository: string)

  /** `images` is the insertion order of the `manifests_paths` dictionary. */
  datatype Descriptor = Descriptor(
    images: seq<string>,
    manifestsPaths: map<string, Option<string>>,
    blobsPaths: map<Digest, Location>)

  datatype Entry =
    | BlobEntry(digest: Digest)
    | ManifestEntry(manifest: Manifest)
    | DescriptorEntry(descriptor: Descriptor)

  datatype Member = Member(path: string, entry: Entry)

  /** Members in writing order; a path written twice reads as its last member. */
  type Zip = seq<Member>

  function Lookup(zip: Zip, path: string): Option<Entry> {
    if zip == [] then None
    else if zip[|zip| - 1].path == path then Some(zip[|zip| - 1].entry)
    else Lookup(zip[..|zip| - 1], path)
  }

  lemma {:induction false} LookupConcat(a: Zip, b: Zip, path: string)
    ensures Lookup(a + b, path) == if Lookup(b, path).Some? then Lookup(b, path) else Lookup(a, path)
    decreases |b|
  {
    if b == [] {
      assert a + b == a;
    } else {
      assert (a + b)[..|a + b| - 1] == a + b[..|b| - 1];
      LookupConcat(a, b[..|b| - 1], path);
    }
  }

  lemma {:induction false} LookupAbsent(zip: Zip, path: string)
    requires forall i :: 0 <= i < |zip| ==> zip[i].path != path
    ensures Lookup(zip, path) == None
    decreases |zip|
  {
    if zip != [] {
      LookupAbsent(zip[..|zip| - 1], path);
    }
  }

  /** A lookup finds the last member with that path. */
  lemma {:induction false} LookupLast(zip: Zip, path: string, i: nat)
    requires i < |zip| && zip[i].path == path
    requires forall j :: i < j < |zip| ==> zip[j].path != path
    ensures Lookup(zip, path) == Some(zip[i].entry)
    decreases |zip|
  {
    if i < |zip| - 1 {
      LookupLast(zip[..|zip| - 1], path, i);
    }
  }
}
