/** When backend/image_transfer/encoder.py can make a payload, whatever the source registry lacks. */
module Packing {
  import opened Common
  import opened ImageNames
  import opened Encoder
  import opened Replay

  /** The source has one manifest for the image, and no more. */
  predicate HasManifest(source: Registry, name: string) {
    && HasColon(name) && GetRepoAndTag(name).value in source.manifests
    && source.manifests[GetRepoAndTag(name).value].Single?
  }

  lemma ManifestFetched(source: Registry, name: string)
    ensures GetManifest(source, name).Ok? <==> HasManifest(source, name)
    ensures GetManifest(source, name).Ok? ==>
              source.manifests[GetRepoAndTag(name).value] == Single(GetManifest(source, name).value)
  {
  }

  /* ---------- blobs ---------- */

  /** The blobs to store are there: of each digest that is not left out, the first one listed. */
  ghost predicate AllThere(source: Registry, pull: seq<Blob>, there: seq<Blob>) {
    forall b :: FirstWithDigest(pull, b) && b.digest !in DigestsOf(there) ==> b in source.blobs
  }

  lemma OneMoreBlob(source: Registry, pull: seq<Blob>, blob: Blob, there: seq<Blob>)
    ensures AllThere(source, pull + [blob], there) <==>
            && AllThere(source, pull, there)
            && (blob.digest in DigestsOf(pull) || blob.digest in DigestsOf(there) || blob in source.blobs)
  {
    var all := pull + [blob];
    forall b | FirstWithDigest(pull, b) ensures FirstWithDigest(all, b) {
      var i :| 0 <= i < |pull| && FirstAt(pull, b, i);
      assert FirstAt(all, b, i);
    }
    if blob.digest !in DigestsOf(pull) {
      assert FirstAt(all, blob, |pull|) by {
        forall j | 0 <= j < |pull| ensures pull[j].digest != blob.digest {
          assert pull[j].digest in DigestsOf(pull);
        }
      }
    }
    forall b | FirstWithDigest(all, b) ensures FirstWithDigest(pull, b) || (b == blob && b.digest !in DigestsOf(pull)) {
      var i :| 0 <= i < |all| && FirstAt(all, b, i);
      assert forall j :: 0 <= j < |pull| ==> all[j] == pull[j];
      if i < |pull| {
        assert FirstAt(pull, b, i);
      }
    }
  }

  lemma {:induction false} AddBlobsExactly(source: Registry, pull: seq<Blob>, there: seq<Blob>)
    ensures AddBlobs(source, pull, there).Ok? <==> AllThere(source, pull, there)
    decreases |pull|
  {
    hide AllThere, DigestsOf;
    if pull == [] {
      NothingToPull(source, there);
    } else {
      var init, last := pull[..|pull| - 1], pull[|pull| - 1];
      AddBlobsExactly(source, init, there);
      OneMoreBlob(source, init, last, there);
      assert pull == init + [last];
      if AddBlobs(source, init, there).Ok? {
        PayloadCompleteAndMinimal(source, init, there);
        LeftOut(there, last.digest);
      }
    }
  }

  lemma NothingToPull(source: Registry, there: seq<Blob>)
    ensures AllThere(source, [], there)
  {
  }

  lemma LeftOut(there: seq<Blob>, d: Digest)
    ensures GetBlobWithSameDigest(there, d).Some? <==> d in DigestsOf(there)
  {
  }

  /* ---------- images ---------- */

  predicate AllHaveColon(ms: seq<Named>) {
    forall i :: 0 <= i < |ms| ==> HasColon(ms[i].name)
  }

  lemma DigestListed(ms: seq<Named>, d: Digest)
    requires AllHaveColon(ms)
    ensures d in DigestsOf(AllBlobs(ms)) <==> exists i :: 0 <= i < |ms| && d in GetListOfBlobs(ms[i].manifest)
  {
    hide AllBlobs, GetListOfBlobs;
    var all := AllBlobs(ms);
    if d in DigestsOf(all) {
      var l :| 0 <= l < |all| && all[l].digest == d;
      FetchedBlobs(ms, all[l]);
      var i :| 0 <= i < |ms| && BlobOf(ms[i], all[l]);
    }
    if i :| 0 <= i < |ms| && d in GetListOfBlobs(ms[i].manifest) {
      EarlierHas(ms, i, d);
    }
  }

  /** The first blob with a digest over all images is the blob of the first image that lists it, and no other. */
  lemma FirstBlobExactly(ms: seq<Named>, b: Blob)
    requires AllHaveColon(ms)
    ensures FirstWithDigest(AllBlobs(ms), b) <==> exists i :: 0 <= i < |ms| && FirstListing(ms, b, i)
  {
    hide AllBlobs, GetListOfBlobs;
    if FirstWithDigest(AllBlobs(ms), b) {
      FirstBlobListed(ms, b);
    }
    if i :| 0 <= i < |ms| && FirstListing(ms, b, i) {
      EarlierHas(ms, i, b.digest);
      var r := GetBlobWithSameDigest(AllBlobs(ms), b.digest).value;
      FirstBlobListed(ms, r);
      var k :| 0 <= k < |ms| && FirstListing(ms, r, k);
      assert k == i && r == b;
    }
  }

  /** Every image has each of its blobs to store in its own repository, unless an earlier one lists the same
      digest too; what an image of `there` lists is not stored. */
  ghost predicate BlobsToStoreThere(source: Registry, ms: seq<Named>, there: seq<Named>) {
    forall i, b :: 0 <= i < |ms| && FirstListing(ms, b, i)
                   && (forall j :: 0 <= j < |there| ==> b.digest !in GetListOfBlobs(there[j].manifest)) ==>
      b in source.blobs
  }

  lemma AllThereByImage(source: Registry, ms: seq<Named>, there: seq<Named>)
    requires AllHaveColon(ms) && AllHaveColon(there)
    ensures AllThere(source, AllBlobs(ms), AllBlobs(there)) <==> BlobsToStoreThere(source, ms, there)
  {
    hide AllBlobs, GetListOfBlobs, FirstListing, FirstWithDigest, DigestsOf, AllHaveColon;
    forall b
      ensures FirstWithDigest(AllBlobs(ms), b) <==> exists i :: 0 <= i < |ms| && FirstListing(ms, b, i)
      ensures b.digest in DigestsOf(AllBlobs(there)) <==>
              exists j :: 0 <= j < |there| && b.digest in GetListOfBlobs(there[j].manifest)
    {
      FirstBlobExactly(ms, b);
      DigestListed(there, b.digest);
    }
  }

  /** A payload can be made exactly when the source has one manifest for every image named, left out or not, and
      the blobs to store. Blobs that only images left out list may be missing. */
  lemma PackedExactly(source: Registry, names: seq<string>, already: seq<string>)
    ensures Encode(source, names, already).Ok? ==> forall n :: n in names || n in already ==> HasManifest(source, n)
    ensures (forall n :: n in names || n in already ==> HasManifest(source, n)) ==>
              && GetManifests(source, Pending(names, already)).Ok? && GetManifests(source, already).Ok?
              && (Encode(source, names, already).Ok? <==>
                  BlobsToStoreThere(source, GetManifests(source, Pending(names, already)).value,
                                    GetManifests(source, already).value))
  {
    hide AddBlobs, AllBlobs, BlobMembers, ManifestMembers, DESCRIPTOR_PATH, HasManifest, GetManifest, AllHaveColon,
      BlobsToStoreThere, AllThere, HasColon;
    var pending := Pending(names, already);
    var fetched, there := GetManifests(source, pending), GetManifests(source, already);
    FetchedExactly(source, pending);
    FetchedExactly(source, already);
    assert forall n :: n in names || n in already <==> n in pending || n in already;
    if fetched.Ok? && there.Ok? {
      FetchedNames(source, pending);
      FetchedNames(source, already);
      NamesHaveColon(fetched.value);
      NamesHaveColon(there.value);
      AddBlobsExactly(source, AllBlobs(fetched.value), AllBlobs(there.value));
      AllThereByImage(source, fetched.value, there.value);
    }
  }

  lemma NamesHaveColon(ms: seq<Named>)
    requires forall i :: 0 <= i < |ms| ==> HasColon(ms[i].name)
    ensures AllHaveColon(ms)
  {
  }

  /** Fetching stops exactly for an image without one manifest. */
  lemma FetchedExactly(source: Registry, names: seq<string>)
    ensures GetManifests(source, names).Ok? <==> forall n :: n in names ==> HasManifest(source, n)
  {
    hide GetManifest, HasManifest;
    forall n ensures GetManifest(source, n).Ok? <==> HasManifest(source, n) {
      ManifestFetched(source, n);
    }
    var r := GetManifests(source, names);
    if r.Ok? {
      forall n | n in names ensures HasManifest(source, n) {
        var i :| 0 <= i < |names| && names[i] == n;
        assert GetManifest(source, names[i]).Ok?;
      }
    }
  }
}
