/** Where transferred images arrive, in the source's own names and tags. */
module Placement {
  import opened Common
  import opened ImageNames
  import opened Encoder
  import opened Decoder
  import opened Replay
  import opened RoundTrip
  import opened IncrementalTransfer

  function TagOf(name: string): string
    requires HasColon(name)
  {
    GetRepoAndTag(name).value.tag
  }

  function Tags(names: seq<string>): seq<string>
    requires AllNamed(names)
  {
    seq(|names|, i requires 0 <= i < |names| => TagOf(names[i]))
  }

  /* ---------- targets ---------- */

  lemma {:induction false} AfterFirstColon(a: string, b: string)
    requires HasColon(a)
    ensures GetRepoAndTag(a + b) == Some(Image(GetRepoAndTag(a).value.repository, GetRepoAndTag(a).value.tag + b))
  {
    assert (a + b)[0] == a[0];
    assert (a + b)[1..] == a[1..] + b;
    if a[0] != ':' {
      assert HasColon(a[1..]);
      AfterFirstColon(a[1..], b);
    }
  }

  lemma TargetAfterColon(name: string, repository: string)
    requires HasColon(name) && HasColon(repository)
    ensures Target(name, Some(repository))
         == Image(GetRepoAndTag(repository).value.repository, GetRepoAndTag(repository).value.tag + ":" + TagOf(name))
  {
    hide GetRepoAndTag, HasColon;
    var tag, front := TagOf(name), GetRepoAndTag(repository).value.tag;
    ColonStays(name, Some(repository));
    AfterFirstColon(repository, ":" + tag);
    Reassociate(repository, ":", tag);
    Reassociate(front, ":", tag);
  }

  lemma Reassociate(a: string, b: string, c: string)
    ensures a + (b + c) == a + b + c
  {
  }

  lemma TargetBeforeColon(name: string, repository: string)
    requires HasColon(name) && !HasColon(repository)
    ensures Target(name, Some(repository)) == Image(repository, TagOf(name))
  {
    ColonStays(name, Some(repository));
    RepoAndTagOf(repository, TagOf(name));
  }

  /** An image keeps its place without the override, and its tag under one, whose own first colon, if any, ends
      the repository. */
  lemma TargetExactly(name: string, repository: string)
    requires HasColon(name)
    ensures Target(name, None) == GetRepoAndTag(name).value
    ensures !HasColon(repository) ==> Target(name, Some(repository)) == Image(repository, TagOf(name))
    ensures HasColon(repository) ==>
              Target(name, Some(repository))
              == Image(GetRepoAndTag(repository).value.repository,
                       GetRepoAndTag(repository).value.tag + ":" + TagOf(name))
  {
    hide GetRepoAndTag, HasColon, TagOf;
    if HasColon(repository) {
      TargetAfterColon(name, repository);
    } else {
      TargetBeforeColon(name, repository);
    }
  }

  /** Two images share a target exactly when, without the override, they are the same image, and under one,
      they have the same tag. */
  lemma SameTarget(a: string, b: string, repository: Option<string>)
    requires HasColon(a) && HasColon(b)
    ensures Target(a, repository) == Target(b, repository) <==>
            if repository.None? then a == b else TagOf(a) == TagOf(b)
  {
    hide Target;
    if repository.None? {
      TargetExactly(a, "");
      TargetExactly(b, "");
      NamesDistinct(a, b);
    } else {
      TargetExactly(a, repository.value);
      TargetExactly(b, repository.value);
      if HasColon(repository.value) {
        var front := GetRepoAndTag(repository.value).value.tag + ":";
        assert (front + TagOf(a))[|front|..] == TagOf(a) && (front + TagOf(b))[|front|..] == TagOf(b);
      }
    }
  }

  /* ---------- where images are found ---------- */

  lemma SameLastIndex<S, T>(keys: seq<S>, others: seq<T>, i: nat)
    requires |keys| == |others| && i < |keys|
    requires forall j :: 0 <= j < |keys| ==> (keys[j] == keys[i] <==> others[j] == others[i])
    ensures LastIndex(keys, keys[i]) == LastIndex(others, others[i])
  {
  }

  /** The image a new one gets its manifest from under the override: the last one with its tag is read from a
      path last written by this one. */
  function OriginByTag(pending: seq<string>, i: nat): (r: nat)
    requires AllNamed(pending) && i < |pending|
    ensures r < |pending|
  {
    SamePath(pending, LastIndex(Tags(pending), Tags(pending)[i]))
  }

  lemma OriginsByTag(pending: seq<string>, repository: string, i: nat)
    requires AllNamed(pending) && i < |pending|
    ensures Origin(pending, Some(repository), i) == OriginByTag(pending, i)
  {
    hide Target, TagOf, SamePath, HasColon;
    forall j | 0 <= j < |pending|
      ensures Targets(pending, Some(repository))[j] == Targets(pending, Some(repository))[i] <==>
              Tags(pending)[j] == Tags(pending)[i]
    {
      SameTarget(pending[j], pending[i], Some(repository));
    }
    SameLastIndex(Targets(pending, Some(repository)), Tags(pending), i);
  }

  lemma OriginsByName(pending: seq<string>, i: nat)
    requires AllNamed(pending) && RoundTrip.Distinct(pending) && i < |pending|
    ensures Origin(pending, None, i) == SamePath(pending, i)
  {
    hide SamePath, HasColon, Target;
    TargetsDistinct(pending);
    LastOfDistinct(Targets(pending, None), i);
  }

  /** Under an override without a colon every new image is found in the repository of the override, under its
      own tag, with the manifest of the last image of that tag and all blobs of it; no other image changes. */
  lemma FoundUnderOverride(source: Registry, names: seq<string>, already: seq<string>, dest: Registry, strict: bool,
                           repository: string)
    requires Transferred(source, names, already, dest, strict, Some(repository)) && !HasColon(repository)
    ensures GetManifests(source, Pending(names, already)).Ok? && AllNamed(Pending(names, already))
    ensures var pending := Pending(names, already);
            var after := Replayed(source, names, already, dest, strict, Some(repository));
            && (forall i :: 0 <= i < |pending| ==>
                  var image, m := Image(repository, TagOf(pending[i])),
                      Fetched(source, pending, OriginByTag(pending, i));
                  image in after.manifests && after.manifests[image] == Single(m) && HasBlobs(after, repository, m))
            && (forall image: Image :: image.repository != repository || image.tag !in Tags(pending) ==>
                  && (image in after.manifests <==> image in dest.manifests)
                  && (image in dest.manifests ==> after.manifests[image] == dest.manifests[image]))
  {
    hide Replayed, Encode, LoadZipImages, GetManifests, Fetched, HasBlobs, Target, Needs, Keys, TagOf,
      PutManifests, SkipsPass, MountsFound, TargetNames, Pending, Origin, OriginByTag, HasColon;
    RoundTrip.RoundTrip(source, names, already, dest, strict, Some(repository));
    var pending := Pending(names, already);
    forall i | 0 <= i < |pending|
      ensures Origin(pending, Some(repository), i) == OriginByTag(pending, i)
      ensures Target(pending[i], Some(repository)) == Image(repository, TagOf(pending[i]))
    {
      OriginsByTag(pending, repository, i);
      TargetExactly(pending[i], repository);
    }
    forall image | image in Targets(pending, Some(repository))
      ensures image.repository == repository && image.tag in Tags(pending)
    {
      var i :| 0 <= i < |pending| && Targets(pending, Some(repository))[i] == image;
      assert Tags(pending)[i] == image.tag;
    }
  }

  /** Without the override every new image is found at its own repository and tag, with the manifest of the last
      image packed under its archive path; no other image changes. */
  lemma FoundAtItsOwnName(source: Registry, names: seq<string>, already: seq<string>, dest: Registry, strict: bool)
    requires Transferred(source, names, already, dest, strict, None)
    ensures GetManifests(source, Pending(names, already)).Ok? && AllNamed(Pending(names, already))
    ensures var pending, after := Pending(names, already), Replayed(source, names, already, dest, strict, None);
            && (forall i :: 0 <= i < |pending| ==>
                  var image, m := GetRepoAndTag(pending[i]).value,
                      Fetched(source, pending, SamePath(pending, i));
                  && image in after.manifests && after.manifests[image] == Single(m)
                  && HasBlobs(after, image.repository, m))
            && (forall image: Image :: image.repository + ":" + image.tag !in pending ==>
                  && (image in after.manifests <==> image in dest.manifests)
                  && (image in dest.manifests ==> after.manifests[image] == dest.manifests[image]))
  {
    hide Replayed, Encode, LoadZipImages, GetManifests, Fetched, HasBlobs, Target, Needs, Keys,
      PutManifests, SkipsPass, MountsFound, TargetNames, NotTransferredYet, Origin, SamePath, HasColon;
    RoundTrip.RoundTrip(source, names, already, dest, strict, None);
    var pending := Pending(names, already);
    assert RoundTrip.Distinct(Keys(names));
    PendingDistinct(Keys(names), already);
    forall i | 0 <= i < |pending|
      ensures Origin(pending, None, i) == SamePath(pending, i)
      ensures Target(pending[i], None) == GetRepoAndTag(pending[i]).value
    {
      OriginsByName(pending, i);
      TargetExactly(pending[i], "");
    }
    forall image | image in Targets(pending, None) ensures image.repository + ":" + image.tag in pending {
      var i :| 0 <= i < |pending| && Targets(pending, None)[i] == image;
      assert pending[i] in pending;
    }
  }

  /** With distinct archive paths, every new image has the source's own manifest there precisely when images of
      one tag have one manifest. */
  lemma IntactByTags(source: Registry, names: seq<string>, already: seq<string>, dest: Registry, strict: bool,
                     repository: string)
    requires Transferred(source, names, already, dest, strict, Some(repository)) && !HasColon(repository)
    requires RoundTrip.Distinct(Paths(Pending(names, already)))
    ensures GetManifests(source, Pending(names, already)).Ok? && AllNamed(Pending(names, already))
    ensures var pending := Pending(names, already);
            var after := Replayed(source, names, already, dest, strict, Some(repository));
            (forall i :: 0 <= i < |pending| ==>
               && Image(repository, TagOf(pending[i])) in after.manifests
               && GetRepoAndTag(pending[i]).value in source.manifests
               && after.manifests[Image(repository, TagOf(pending[i]))]
                  == source.manifests[GetRepoAndTag(pending[i]).value])
            <==> forall i, j :: 0 <= i < j < |pending| && TagOf(pending[i]) == TagOf(pending[j]) ==>
                   Fetched(source, pending, i) == Fetched(source, pending, j)
  {
    hide Replayed, Encode, LoadZipImages, GetManifests, Fetched, Target, Keys, TagOf, Pending, HasColon,
      GetRepoAndTag, NormalizeName;
    IntactWithDistinctPaths(source, names, already, dest, strict, Some(repository));
    var pending := Pending(names, already);
    forall i | 0 <= i < |pending| ensures Target(pending[i], Some(repository)) == Image(repository, TagOf(pending[i])) {
      TargetExactly(pending[i], repository);
    }
  }

  /** The names returned: the images in order, each under the override with its own tag. */
  lemma NamesReturned(source: Registry, names: seq<string>, already: seq<string>, dest: Registry, strict: bool,
                      repository: Option<string>)
    requires Transferred(source, names, already, dest, strict, repository)
    ensures AllNamed(Keys(names))
    ensures var images := LoadZipImages(dest, Encode(source, names, already).value, strict, repository).images;
            && |images| == |Keys(names)|
            && forall i :: 0 <= i < |images| ==>
                 images[i] == if repository.None? then Keys(names)[i]
                              else repository.value + ":" + TagOf(Keys(names)[i])
  {
    hide Encode, LoadZipImages, Keys, SkipsPass, MountsFound, GetRepoAndTag, HasColon, Needs, Fetched;
    RoundTrip.RoundTrip(source, names, already, dest, strict, repository);
  }

  /** Why a replay raises: a mount whose source lacks the blob, an image left out whose place in the destination is
      blocked, or, when strict, one whose place is empty. */
  lemma WhyItRaises(source: Registry, names: seq<string>, already: seq<string>, dest: Registry, strict: bool,
                    repository: Option<string>)
    requires Encode(source, names, already).Ok?
    ensures AllNamed(Keys(names))
    ensures var error, keys :=
        LoadZipImages(dest, Encode(source, names, already).value, strict, repository).error, Keys(names);
            error.Some? ==>
              || error == Some(MountFailed)
              || (&& error == Some(PreconditionFailed)
                  && exists i ::
                       && 0 <= i < |keys| && keys[i] in already && Target(keys[i], repository) in dest.manifests
                       && dest.manifests[Target(keys[i], repository)].Blocked?)
              || (&& error == Some(ManifestNotFoundError) && strict
                  && exists i ::
                       0 <= i < |keys| && keys[i] in already && Target(keys[i], repository) !in dest.manifests)
  {
    hide Encode, LoadZipImages, Keys, SkipsPass, MountsFound, GetRepoAndTag, HasColon, TargetName;
    ReplayExactly(source, names, already, dest, strict, repository);
    var error := LoadZipImages(dest, Encode(source, names, already).value, strict, repository).error;
    if FailsCheck(dest, Keys(names), already, strict, repository, error) {
      var i :| 0 <= i < |Keys(names)| && CheckGives(dest, Keys(names), already, strict, repository, i, error);
      ColonStays(Keys(names)[i], repository);
      assert error.Some? ==> Keys(names)[i] in already;
    }
  }

  /* ---------- in which order ---------- */

  function FirstIndex(names: seq<string>, name: string): (r: nat)
    requires name in names
    ensures r < |names| && names[r] == name && forall j :: 0 <= j < r ==> names[j] != name
  {
    if names[0] == name then 0 else 1 + FirstIndex(names[1..], name)
  }

  lemma FirstIndexIs(names: seq<string>, name: string, r: nat)
    requires r < |names| && names[r] == name && forall j :: 0 <= j < r ==> names[j] != name
    ensures FirstIndex(names, name) == r
  {
  }

  predicate InOrderOf(names: seq<string>, some: seq<string>)
    requires forall x :: x in some ==> x in names
  {
    forall i, j :: 0 <= i < j < |some| ==> FirstIndex(names, some[i]) < FirstIndex(names, some[j])
  }

  lemma OneMoreInOrder(names: seq<string>, some: seq<string>, last: string)
    requires (forall x :: x in some ==> x in names) && InOrderOf(names, some)
    ensures forall x :: x in some ==> x in names + [last]
    ensures InOrderOf(names + [last], some)
    ensures last !in names ==> InOrderOf(names + [last], some + [last])
  {
    hide FirstIndex;
    forall x | x in some ensures FirstIndex(names + [last], x) == FirstIndex(names, x) {
      FirstIndexIs(names + [last], x, FirstIndex(names, x));
    }
    if last !in names {
      FirstIndexIs(names + [last], last, |names|);
    }
  }

  /** The images of a payload are listed in the order of their first occurrence. */
  lemma {:induction false} KeysInOrder(names: seq<string>)
    ensures InOrderOf(names, Keys(names))
    decreases |names|
  {
    hide InOrderOf;
    if names != [] {
      var before, last := names[..|names| - 1], names[|names| - 1];
      KeysInOrder(before);
      assert names == before + [last];
      OneMoreInOrder(before, Keys(before), last);
    } else {
      assert Keys(names) == [];
      EmptyInOrder(names);
    }
  }

  lemma EmptyInOrder(names: seq<string>)
    ensures InOrderOf(names, [])
  {
  }

  lemma {:induction false} LeftInOrder(images: seq<string>, already: seq<string>)
    requires RoundTrip.Distinct(images)
    ensures InOrderOf(images, NotTransferredYet(images, already))
    decreases |images|
  {
    hide InOrderOf;
    if images != [] {
      var before, last := images[..|images| - 1], images[|images| - 1];
      LeftInOrder(before, already);
      assert images == before + [last] && last !in before;
      OneMoreInOrder(before, NotTransferredYet(before, already), last);
    } else {
      EmptyInOrder(images);
    }
  }

  /** So are those packed, each once, and they are exactly the images named and not transferred already. */
  lemma PackedInOrder(names: seq<string>, already: seq<string>)
    ensures forall x :: x in Pending(names, already) <==> x in names && x !in already
    ensures InOrderOf(names, Pending(names, already))
  {
    hide FirstIndex, Keys, NotTransferredYet;
    KeysInOrder(names);
    assert RoundTrip.Distinct(Keys(names));
    LeftInOrder(Keys(names), already);
    var keys, pending := Keys(names), Pending(names, already);
    forall i, j | 0 <= i < j < |pending|
      ensures FirstIndex(names, pending[i]) < FirstIndex(names, pending[j])
    {
      assert FirstIndex(keys, pending[i]) < FirstIndex(keys, pending[j]);
    }
  }
}
