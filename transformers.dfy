/** Transformers: the entity with its list of inspections and the two-way
    link between them (Transformer), and the service that patches, deletes
    and stores the baseline image of a transformer (TransformerService). */
module Transformers {
  import opened Common
  import opened FileUrls

  /** The inspection side of the link: only the back-reference matters here. */
  class TransformerInspection {
    var transformer: Transformer?

    constructor ()
      ensures transformer == null
    {
      transformer := null;
    }
  }

  /** List.remove(x): drops the first element equal to x, if any. */
  function RemoveFirst<T(==)>(s: seq<T>, x: T): (r: seq<T>)
    ensures x !in s ==> r == s
    ensures x in s ==> |r| == |s| - 1
  {
    if s == [] then []
    else if s[0] == x then s[1..]
    else [s[0]] + RemoveFirst(s[1..], x)
  }

  /** Removing the first occurrence removes one copy of x. */
  lemma {:induction false} RemoveFirstMultiset<T>(s: seq<T>, x: T)
    ensures multiset(RemoveFirst(s, x)) == multiset(s) - multiset{x}
  {
    if s != [] {
      assert s == [s[0]] + s[1..];
      assert multiset(s) == multiset{s[0]} + multiset(s[1..]);
      if s[0] != x {
        RemoveFirstMultiset(s[1..], x);
        var rest := RemoveFirst(s[1..], x);
        assert RemoveFirst(s, x) == [s[0]] + rest;
        assert multiset(RemoveFirst(s, x)) == multiset{s[0]} + multiset(rest);
      }
    }
  }

  /** The copy removed is the first one: if k is the first position
      holding x, the result is s without position k. */
  lemma {:induction false} RemoveFirstRemovesFirst<T>(s: seq<T>, x: T, k: int)
    requires 0 <= k < |s| && s[k] == x
    requires forall j :: 0 <= j < k ==> s[j] != x
    ensures RemoveFirst(s, x) == s[..k] + s[k + 1..]
  {
    if k == 0 {
      assert s[..0] + s[1..] == s[1..];
    } else {
      RemoveFirstRemovesFirst(s[1..], x, k - 1);
      assert s[..k] == [s[0]] + s[1..][..k - 1];
      assert s[k + 1..] == s[1..][k..];
    }
  }

  /** The rest keep their order. */
  lemma {:induction false} RemoveFirstSubsequence<T>(s: seq<T>, x: T)
    ensures IsSubsequence(RemoveFirst(s, x), s)
  {
    if s != [] {
      if s[0] == x {
        SubsequenceOfTail(s[1..], s);
      } else {
        RemoveFirstSubsequence(s[1..], x);
        assert RemoveFirst(s, x)[1..] == RemoveFirst(s[1..], x);
      }
    }
  }

  predicate Distinct<T(==)>(s: seq<T>) {
    forall j, k :: 0 <= j < k < |s| ==> s[j] != s[k]
  }

  /** From a list without repeats, x is gone afterwards, every remaining
      element was there before, and there are still no repeats. */
  lemma {:induction false} RemoveFirstDistinct<T>(s: seq<T>, x: T)
    requires Distinct(s)
    ensures x !in RemoveFirst(s, x)
    ensures forall y :: y in RemoveFirst(s, x) ==> y in s
    ensures Distinct(RemoveFirst(s, x))
  {
    if s != [] {
      assert Distinct(s[1..]) by {
        forall j, k | 0 <= j < k < |s[1..]| ensures s[1..][j] != s[1..][k] {
          assert s[1..][j] == s[j + 1] && s[1..][k] == s[k + 1];
        }
      }
      RemoveFirstDistinct(s[1..], x);
      if s[0] == x {
        forall k | 0 <= k < |s[1..]| ensures s[1..][k] != x {
          assert s[1..][k] == s[k + 1];
        }
      } else {
        var r := RemoveFirst(s, x);
        var t := RemoveFirst(s[1..], x);
        assert r == [s[0]] + t;
        forall k | 0 <= k < |s[1..]| ensures s[1..][k] != s[0] {
          assert s[1..][k] == s[k + 1];
        }
        assert s[0] !in s[1..];
      }
    }
  }

  lemma {:induction false} SubsequenceOfTail<T>(t: seq<T>, s: seq<T>)
    requires s != [] && t == s[1..]
    ensures IsSubsequence(t, s)
  {
    SubsequenceRefl(t);
  }

  lemma {:induction false} SubsequenceRefl<T>(s: seq<T>)
    ensures IsSubsequence(s, s)
  {
    if s != [] {
      SubsequenceRefl(s[1..]);
    }
  }

  class Transformer {
    var transformerNumber: Option<string>
    var poleNumber: Option<string>
    var region: Option<string>
    var transformerType: Option<string>
    var locationDetails: Option<string>
    var contentType: Option<string>
    var baseImageUrl: Option<string>
    var inspections: seq<TransformerInspection>

    /** Every inspection on the list points back to this transformer. */
    ghost predicate Linked()
      reads this, inspections
    {
      forall i :: i in inspections ==> i.transformer == this
    }

    ghost predicate NoRepeats()
      reads this
    {
      Distinct(inspections)
    }

    /** The no-argument constructor: every field null, no inspections. */
    constructor Empty()
      ensures transformerNumber.None? && poleNumber.None? && region.None? && transformerType.None?
      ensures locationDetails.None? && contentType.None? && baseImageUrl.None?
      ensures inspections == []
    {
      transformerNumber := None;
      poleNumber := None;
      region := None;
      transformerType := None;
      locationDetails := None;
      contentType := None;
      baseImageUrl := None;
      inspections := [];
    }

    /** The five-argument constructor: its arguments stored, content type and
        base image URL null, no inspections. */
    constructor (number: Option<string>, pole: Option<string>, region: Option<string>,
                 kind: Option<string>, location: Option<string>)
      ensures transformerNumber == number && poleNumber == pole && this.region == region
      ensures transformerType == kind && locationDetails == location
      ensures contentType.None? && baseImageUrl.None?
      ensures inspections == []
    {
      transformerNumber := number;
      poleNumber := pole;
      this.region := region;
      transformerType := kind;
      locationDetails := location;
      contentType := None;
      baseImageUrl := None;
      inspections := [];
    }

    /** addInspection: appended at the end, and linked back to this. */
    method AddInspection(i: TransformerInspection)
      modifies this`inspections, i`transformer
      ensures inspections == old(inspections) + [i]
      ensures i.transformer == this
      ensures old(Linked()) ==> Linked()
    {
      inspections := inspections + [i];
      i.transformer := this;
    }

    /** removeInspection: the first equal entry is dropped and the
        back-reference cleared, even when the inspection was not listed. */
    method RemoveInspection(i: TransformerInspection)
      modifies this`inspections, i`transformer
      ensures inspections == RemoveFirst(old(inspections), i)
      ensures i.transformer == null
      ensures old(Linked()) && old(NoRepeats()) ==> Linked() && NoRepeats()
    {
      ghost var before := inspections;
      inspections := RemoveFirst(inspections, i);
      i.transformer := null;
      if old(Linked()) && old(NoRepeats()) {
        RemoveFirstDistinct(before, i);
      }
    }
  }

  /** The transformer fields an update request may carry. */
  datatype TransformerUpdate = TransformerUpdate(
    poleNumber: Option<string>, region: Option<string>, transformerType: Option<string>,
    locationDetails: Option<string>, contentType: Option<string>, baseImageUrl: Option<string>)

  /** Path.of("uploads", url.replace("/files/", "")) for the baseline image,
      or null when there is none. */
  function BaseImagePath(url: Option<string>): (r: Option<string>)
    ensures url.None? <==> r.None?
  {
    if url.None? then None else Some(ResourcePath(url.value))
  }

  /** The baseline image stored for transformer t is found again under
      uploads/transformers/t/filename. */
  lemma {:induction false} BaseImageRoundTrip(t: string, original: Option<string>)
    requires NoSlash(t) && NoSlash(StoredFilename(original)) && t != "files"
    ensures BaseImagePath(Some(PublicUrl("transformers", t, StoredFilename(original))))
         == Some("uploads/transformers/" + t + "/" + StoredFilename(original))
  {
    assert NoSlash("transformers");
    ResourcePathOfPublicUrl("transformers", t, StoredFilename(original));
    assert "uploads/" + "transformers" + "/" + t + "/" + StoredFilename(original)
        == "uploads/transformers/" + t + "/" + StoredFilename(original);
  }

  class TransformerService {
    /** The transformer table, keyed by transformer number. */
    var repo: map<string, Transformer>

    ghost predicate Valid()
      reads this, repo.Values
    {
      forall n :: n in repo ==> repo[n].transformerNumber == Some(n)
    }

    constructor ()
      ensures Valid() && repo == map[]
    {
      repo := map[];
    }

    /** get(transformerNumber): the transformer, or null when absent. */
    method Get(n: string) returns (r: Transformer?)
      ensures n in repo ==> r == repo[n]
      ensures n !in repo ==> r == null
    {
      r := if n in repo then repo[n] else null;
    }

    /** update: NotFound when absent; otherwise each non-null field of the
        request overwrites the stored one. The number, the inspections and
        every other transformer stay as they were. */
    method Update(n: string, updates: TransformerUpdate) returns (r: Result<Transformer>)
      requires Valid()
      modifies if n in repo then {repo[n]} else {}
      ensures Valid()
      ensures n !in repo ==> r == Err(NotFound)
      ensures n in repo ==>
        var t := repo[n];
        && r == Ok(t)
        && t.poleNumber == Patch(old(t.poleNumber), updates.poleNumber)
        && t.region == Patch(old(t.region), updates.region)
        && t.transformerType == Patch(old(t.transformerType), updates.transformerType)
        && t.locationDetails == Patch(old(t.locationDetails), updates.locationDetails)
        && t.contentType == Patch(old(t.contentType), updates.contentType)
        && t.baseImageUrl == Patch(old(t.baseImageUrl), updates.baseImageUrl)
        && t.transformerNumber == old(t.transformerNumber)
        && t.inspections == old(t.inspections)
    {
      if n !in repo {
        return Err(NotFound);
      }
      var t := repo[n];
      t.poleNumber := Patch(t.poleNumber, updates.poleNumber);
      t.region := Patch(t.region, updates.region);
      t.transformerType := Patch(t.transformerType, updates.transformerType);
      t.locationDetails := Patch(t.locationDetails, updates.locationDetails);
      t.contentType := Patch(t.contentType, updates.contentType);
      t.baseImageUrl := Patch(t.baseImageUrl, updates.baseImageUrl);
      r := Ok(t);
    }

    /** delete: false and no change when absent, else removes it. */
    method Delete(n: string) returns (deleted: bool)
      requires Valid()
      modifies this
      ensures Valid()
      ensures deleted == (n in old(repo))
      ensures repo == old(repo) - {n}
    {
      deleted := n in repo;
      if deleted {
        repo := repo - {n};
      }
    }

    /** saveBaseImage: a missing transformer throws; otherwise its base image
        URL becomes /files/transformers/n/filename. */
    method SaveBaseImage(n: string, original: Option<string>) returns (r: Result<string>)
      requires Valid()
      modifies if n in repo then {repo[n]} else {}
      ensures Valid()
      ensures n !in repo ==> r == Err(NullPointer)
      ensures n in repo ==>
        && r == Ok(PublicUrl("transformers", n, StoredFilename(original)))
        && repo[n].baseImageUrl == Some(r.value)
        && repo[n].poleNumber == old(repo[n].poleNumber) && repo[n].region == old(repo[n].region)
        && repo[n].transformerType == old(repo[n].transformerType)
        && repo[n].locationDetails == old(repo[n].locationDetails)
        && repo[n].contentType == old(repo[n].contentType)
        && repo[n].transformerNumber == old(repo[n].transformerNumber)
        && repo[n].inspections == old(repo[n].inspections)
    {
      var filename := StoredFilename(original);
      var url := PublicUrl("transformers", n, filename);
      if n !in repo {
        return Err(NullPointer);
      }
      repo[n].baseImageUrl := Some(url);
      r := Ok(url);
    }

    /** getBaseImage: a missing transformer throws; otherwise the path of its
        base image, or null when it has none. */
    method GetBaseImage(n: string) returns (r: Result<Option<string>>)
      ensures n !in repo ==> r == Err(NullPointer)
      ensures n in repo ==> r == Ok(BaseImagePath(repo[n].baseImageUrl))
    {
      if n !in repo {
        return Err(NullPointer);
      }
      r := Ok(BaseImagePath(repo[n].baseImageUrl));
    }
  }
}
