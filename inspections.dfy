/** The inspection service: reading inspections as response objects,
    null-guarded patch updates, delete, the comment thread of an inspection,
    and storing or locating the thermal image of an inspection
    (InspectionService, InspectionResponse). */
module Inspections {
  import opened Common
  import opened FileUrls
  import opened Detections
  import opened InspectionStore

  /** The request body of create and update; every field may be null. */
  datatype InspectionRequest = InspectionRequest(
    inspectionNumber: Option<string>,
    transformerNumber: Option<string>,
    inspectionDate: Option<string>,
    inspectionTime: Option<string>,
    branch: Option<string>,
    maintenanceDate: Option<string>,
    maintenanceTime: Option<string>,
    status: Option<string>)

  /** What clients see of an inspection. */
  datatype InspectionResponse = InspectionResponse(
    inspectionNumber: string,
    transformerNumber: string,
    inspectionDate: Option<string>,
    inspectionTime: Option<string>,
    branch: Option<string>,
    maintenanceDate: Option<string>,
    maintenanceTime: Option<string>,
    status: Option<string>)

  const NotAvailable: string := "N/A"

  /** The entity-to-response constructor: the transformer number, or "N/A"
      when the inspection has no transformer; the other fields verbatim. */
  function ResponseOf(i: Inspection): (r: InspectionResponse)
    ensures i.transformer.None? ==> r.transformerNumber == NotAvailable
    ensures i.transformer.Some? ==> r.transformerNumber == i.transformer.value
    ensures r.inspectionNumber == i.inspectionNumber && r.status == i.status && r.branch == i.branch
    ensures r.inspectionDate == i.inspectionDate && r.inspectionTime == i.inspectionTime
    ensures r.maintenanceDate == i.maintenanceDate && r.maintenanceTime == i.maintenanceTime
  {
    InspectionResponse(
      i.inspectionNumber,
      if i.transformer.Some? then i.transformer.value else NotAvailable,
      i.inspectionDate, i.inspectionTime, i.branch, i.maintenanceDate, i.maintenanceTime, i.status)
  }

  /** The image URL and the prediction JSON are not exposed: inspections that
      differ only there have the same response. */
  lemma ResponseHidesImage(i: Inspection, url: Option<string>, json: Option<string>)
    ensures ResponseOf(i.(imageUrl := url, predictionJson := json)) == ResponseOf(i)
  {
  }

  /** The update: each of the six editable fields takes the request's value
      when that is not null. */
  function Patched(i: Inspection, req: InspectionRequest): Inspection {
    i.(inspectionDate := Patch(i.inspectionDate, req.inspectionDate),
       inspectionTime := Patch(i.inspectionTime, req.inspectionTime),
       branch := Patch(i.branch, req.branch),
       maintenanceDate := Patch(i.maintenanceDate, req.maintenanceDate),
       maintenanceTime := Patch(i.maintenanceTime, req.maintenanceTime),
       status := Patch(i.status, req.status))
  }

  /** An update never changes the number, the transformer, the image or the
      predictions; a null field keeps its value and a non-null one wins;
      applying the same request twice is applying it once. */
  lemma PatchedLaws(i: Inspection, req: InspectionRequest)
    ensures Patched(i, req).inspectionNumber == i.inspectionNumber
    ensures Patched(i, req).transformer == i.transformer
    ensures Patched(i, req).imageUrl == i.imageUrl && Patched(i, req).predictionJson == i.predictionJson
    ensures req.status.None? ==> Patched(i, req).status == i.status
    ensures req.status.Some? ==> Patched(i, req).status == req.status
    ensures req.inspectionDate.None? ==> Patched(i, req).inspectionDate == i.inspectionDate
    ensures req.inspectionDate.Some? ==> Patched(i, req).inspectionDate == req.inspectionDate
    ensures Patched(Patched(i, req), req) == Patched(i, req)
  {
  }

  /** The path of the stored image: the public URL with every "/files/"
      removed, under the uploads directory. An inspection without a date has
      no image; a dated inspection without a URL throws. */
  function ImagePath(i: Inspection): (r: Result<Option<string>>)
    ensures i.inspectionDate.None? ==> r == Ok(None)
    ensures i.inspectionDate.Some? && i.imageUrl.None? ==> r == Err(NullPointer)
  {
    if i.inspectionDate.None? then Ok(None)
    else if i.imageUrl.None? then Err(NullPointer)
    else Ok(Some(ResourcePath(i.imageUrl.value)))
  }

  /** The image stored for inspection n is found again under
      uploads/inspections/n/filename. */
  lemma {:induction false} ImagePathRoundTrip(i: Inspection, original: Option<string>)
    requires i.inspectionDate.Some?
    requires NoSlash(i.inspectionNumber) && NoSlash(StoredFilename(original)) && i.inspectionNumber != "files"
    ensures ImagePath(i.(imageUrl := Some(PublicUrl("inspections", i.inspectionNumber, StoredFilename(original)))))
         == Ok(Some("uploads/inspections/" + i.inspectionNumber + "/" + StoredFilename(original)))
  {
    assert NoSlash("inspections");
    ResourcePathOfPublicUrl("inspections", i.inspectionNumber, StoredFilename(original));
    assert "uploads/" + "inspections" + "/" + i.inspectionNumber + "/" + StoredFilename(original)
        == "uploads/inspections/" + i.inspectionNumber + "/" + StoredFilename(original);
  }

  // ------------------------------------------------------------ comments

  /** A comment row. */
  datatype Comment = Comment(
    id: nat, inspection: string,
    topic: Option<string>, comment: Option<string>, author: Option<string>,
    createdAt: nat)

  datatype CommentResponse = CommentResponse(
    id: nat, author: Option<string>, topic: Option<string>, comment: Option<string>, createdAt: nat)

  function ResponseOfComment(c: Comment): CommentResponse {
    CommentResponse(c.id, c.author, c.topic, c.comment, c.createdAt)
  }

  function CommentCreatedAt(c: Comment): int { c.createdAt }

  function Responses(cs: seq<Comment>): (r: seq<CommentResponse>)
    ensures |r| == |cs|
    ensures forall i :: 0 <= i < |cs| ==> r[i] == ResponseOfComment(cs[i])
  {
    seq(|cs|, i requires 0 <= i < |cs| => ResponseOfComment(cs[i]))
  }

  /** getComments: the responses of the inspection's comments, newest first. */
  function CommentsOf(cs: seq<Comment>, inspection: string): (r: seq<CommentResponse>)
    ensures |r| == |Filter(cs, (c: Comment) => c.inspection == inspection)|
    ensures forall i, j :: 0 <= i < j < |r| ==> r[i].createdAt >= r[j].createdAt
  {
    Responses(SortDesc(Filter(cs, (c: Comment) => c.inspection == inspection), CommentCreatedAt))
  }

  /** The listing holds exactly the inspection's comments. */
  lemma CommentsOfMembers(cs: seq<Comment>, inspection: string)
    ensures forall c :: c in cs && c.inspection == inspection ==> ResponseOfComment(c) in CommentsOf(cs, inspection)
    ensures forall v :: v in CommentsOf(cs, inspection) ==>
      exists c :: c in cs && c.inspection == inspection && v == ResponseOfComment(c)
  {
    var f := Filter(cs, (c: Comment) => c.inspection == inspection);
    var sorted := SortDesc(f, CommentCreatedAt);
    var r := CommentsOf(cs, inspection);
    assert r == Responses(sorted);
    forall v | v in r
      ensures exists c :: c in cs && c.inspection == inspection && v == ResponseOfComment(c)
    {
      var k :| 0 <= k < |r| && r[k] == v;
      assert sorted[k] in multiset(sorted);
      assert sorted[k] in f;
    }
    forall c | c in cs && c.inspection == inspection
      ensures ResponseOfComment(c) in r
    {
      assert c in f;
      assert c in multiset(sorted);
      var k :| 0 <= k < |sorted| && sorted[k] == c;
      assert r[k] == ResponseOfComment(c);
    }
  }

  predicate HasComment(cs: seq<Comment>, id: nat) {
    exists c :: c in cs && c.id == id
  }

  /** updateComment on the rows: the comment with that id gets the new topic,
      text and author and the current time; every other row is kept. */
  function Rewritten(cs: seq<Comment>, id: nat, topic: Option<string>, comment: Option<string>,
                     author: Option<string>, now: nat): (r: seq<Comment>)
    ensures |r| == |cs|
    ensures forall i :: 0 <= i < |cs| && cs[i].id != id ==> r[i] == cs[i]
    ensures forall i :: 0 <= i < |cs| && cs[i].id == id ==>
      r[i] == cs[i].(topic := topic, comment := comment, author := author, createdAt := now)
  {
    seq(|cs|, i requires 0 <= i < |cs| =>
      if cs[i].id == id then cs[i].(topic := topic, comment := comment, author := author, createdAt := now)
      else cs[i])
  }

  ghost predicate CommentIdsIncrease(cs: seq<Comment>) {
    Pairwise(cs, (a: Comment, b: Comment) => a.id < b.id)
  }

  /** Rewriting keeps every comment's id in its place, so the ids still
      increase, and no timestamp passes now. */
  lemma RewrittenKeepsIds(cs: seq<Comment>, id: nat, topic: Option<string>, comment: Option<string>,
                          author: Option<string>, now: nat, next: nat)
    requires forall c :: c in cs ==> c.id < next && c.createdAt <= now
    requires CommentIdsIncrease(cs)
    ensures forall c :: c in Rewritten(cs, id, topic, comment, author, now) ==> c.id < next && c.createdAt <= now
    ensures CommentIdsIncrease(Rewritten(cs, id, topic, comment, author, now))
  {
    var r := Rewritten(cs, id, topic, comment, author, now);
    forall c | c in r ensures c.id < next && c.createdAt <= now {
      var k :| 0 <= k < |r| && r[k] == c;
      assert cs[k] in cs;
    }
    assert forall k :: 0 <= k < |r| ==> r[k].id == cs[k].id;
  }

  // ------------------------------------------------------------ the service

  class InspectionService {
    const inspections: InspectionRepo
    const detections: DetectionRepo
    var comments: seq<Comment>
    var nextCommentId: nat
    /** The wall clock, as a counter that only moves forward. */
    var clock: nat

    ghost predicate Valid()
      reads this, inspections, detections
    {
      inspections.Valid() && detections.Valid()
      && (forall c :: c in comments ==> c.id < nextCommentId && c.createdAt <= clock)
      && CommentIdsIncrease(comments)
    }

    constructor (inspections: InspectionRepo, detections: DetectionRepo)
      requires inspections.Valid() && detections.Valid()
      ensures Valid() && this.inspections == inspections && this.detections == detections
      ensures comments == [] && nextCommentId == 0 && clock == 0
    {
      this.inspections := inspections;
      this.detections := detections;
      comments := [];
      nextCommentId := 0;
      clock := 0;
    }

    /** get(inspectionNumber): the response, or null when absent. */
    method Get(n: string) returns (r: Option<InspectionResponse>)
      ensures n !in inspections.rows ==> r == None
      ensures n in inspections.rows ==> r == Some(ResponseOf(inspections.rows[n]))
    {
      if n in inspections.rows {
        r := Some(ResponseOf(inspections.rows[n]));
      } else {
        r := None;
      }
    }

    /** getInspectionOfTransformer: the responses of the transformer's
        inspections, by inspection number. */
    method InspectionsOfTransformer(t: string) returns (r: map<string, InspectionResponse>)
      ensures forall n :: n in r <==> n in inspections.rows && inspections.rows[n].transformer == Some(t)
      ensures forall n :: n in r ==> r[n] == ResponseOf(inspections.rows[n])
    {
      r := map n | n in inspections.rows && inspections.rows[n].transformer == Some(t) :: ResponseOf(inspections.rows[n]);
    }

    /** update: NotFound leaves the store as it was; otherwise the non-null
        request fields overwrite the stored ones. */
    method Update(n: string, req: InspectionRequest) returns (r: Result<InspectionResponse>)
      requires Valid()
      modifies inspections
      ensures Valid()
      ensures n !in old(inspections.rows) ==> r == Err(NotFound) && unchanged(inspections)
      ensures n in old(inspections.rows) ==>
        && inspections.rows == old(inspections.rows)[n := Patched(old(inspections.rows[n]), req)]
        && r == Ok(ResponseOf(inspections.rows[n]))
    {
      if n !in inspections.rows {
        return Err(NotFound);
      }
      var updated := Patched(inspections.rows[n], req);
      inspections.rows := inspections.rows[n := updated];
      r := Ok(ResponseOf(updated));
    }

    /** delete: false and no change when absent, else removes it. */
    method Delete(n: string) returns (deleted: bool)
      requires Valid()
      modifies inspections
      ensures Valid()
      ensures deleted == (n in old(inspections.rows))
      ensures inspections.rows == old(inspections.rows) - {n}
    {
      deleted := n in inspections.rows;
      if deleted {
        inspections.rows := inspections.rows - {n};
      }
    }

    /** addComment: NotFound when the inspection is absent; otherwise a new
        comment stamped with the current time. */
    method AddComment(n: string, topic: Option<string>, comment: Option<string>, author: Option<string>, elapsed: nat)
      returns (r: Result<Comment>)
      requires Valid()
      modifies this
      ensures Valid()
      ensures clock == old(clock) + elapsed
      ensures n !in inspections.rows ==> r == Err(NotFound) && comments == old(comments) && nextCommentId == old(nextCommentId)
      ensures n in inspections.rows ==>
        && r == Ok(Comment(old(nextCommentId), n, topic, comment, author, clock))
        && comments == old(comments) + [r.value]
        && nextCommentId == old(nextCommentId) + 1
    {
      clock := clock + elapsed;
      if n !in inspections.rows {
        return Err(NotFound);
      }
      var c := Comment(nextCommentId, n, topic, comment, author, clock);
      comments := comments + [c];
      nextCommentId := nextCommentId + 1;
      r := Ok(c);
    }

    method GetComments(n: string) returns (r: seq<CommentResponse>)
      ensures r == CommentsOf(comments, n)
    {
      r := CommentsOf(comments, n);
    }

    /** updateComment: NotFound when absent; otherwise topic, text and author
        are overwritten and the timestamp reset to now. */
    method UpdateComment(id: nat, topic: Option<string>, comment: Option<string>, author: Option<string>, elapsed: nat)
      returns (r: Outcome)
      requires Valid()
      modifies this
      ensures Valid()
      ensures clock == old(clock) + elapsed && nextCommentId == old(nextCommentId)
      ensures !HasComment(old(comments), id) ==> r == Fail(NotFound) && comments == old(comments)
      ensures HasComment(old(comments), id) ==>
        r == Pass && comments == Rewritten(old(comments), id, topic, comment, author, clock)
    {
      clock := clock + elapsed;
      if !HasComment(comments, id) {
        return Fail(NotFound);
      }
      RewrittenKeepsIds(comments, id, topic, comment, author, clock, nextCommentId);
      comments := Rewritten(comments, id, topic, comment, author, clock);
      r := Pass;
    }

    /** deleteComment: NotFound when absent; otherwise exactly that comment
        is removed. */
    method DeleteComment(id: nat) returns (r: Outcome)
      requires Valid()
      modifies this
      ensures Valid()
      ensures clock == old(clock) && nextCommentId == old(nextCommentId)
      ensures !HasComment(old(comments), id) ==> r == Fail(NotFound) && comments == old(comments)
      ensures HasComment(old(comments), id) ==>
        r == Pass && comments == Filter(old(comments), (c: Comment) => c.id != id)
    {
      if !HasComment(comments, id) {
        return Fail(NotFound);
      }
      FilterPairwise(comments, (c: Comment) => c.id != id, (a: Comment, b: Comment) => a.id < b.id);
      comments := Filter(comments, (c: Comment) => c.id != id);
      r := Pass;
    }

    /** saveInspectionImage: the URL is built from the stored filename and
        recorded on the inspection (a missing inspection throws), then every
        prediction of the analysis is stored as a detection. A null list of
        outputs throws after the URL has been saved. */
    method SaveInspectionImage(n: string, original: Option<string>, analysis: AnalysisResult)
      returns (r: Result<string>)
      requires Valid()
      modifies inspections, detections
      ensures Valid()
      ensures n !in old(inspections.rows) ==> r == Err(NullPointer) && unchanged(inspections, detections)
      ensures n in old(inspections.rows) ==>
        var url := PublicUrl("inspections", n, StoredFilename(original));
        && inspections.rows == old(inspections.rows)[n := old(inspections.rows[n]).(imageUrl := Some(url))]
        && (analysis.outputs.None? ==> r == Err(NullPointer) && unchanged(detections))
        && (analysis.outputs.Some? ==>
              && r == Ok(url)
              && detections.nextId == old(detections.nextId) + |Flatten(analysis.outputs.value)|
              && detections.rows == old(detections.rows)
                   + Rows(old(detections.nextId), Flatten(analysis.outputs.value), n))
    {
      var filename := StoredFilename(original);
      var url := PublicUrl("inspections", n, filename);
      if n !in inspections.rows {
        return Err(NullPointer);
      }
      inspections.rows := inspections.rows[n := inspections.rows[n].(imageUrl := Some(url))];
      if analysis.outputs.None? {
        return Err(NullPointer);
      }
      Ingest(detections, analysis.outputs.value, n);
      r := Ok(url);
    }

    /** getInspectionImage: a missing inspection throws; otherwise the image
        path of the inspection. */
    method GetInspectionImage(n: string) returns (r: Result<Option<string>>)
      ensures n !in inspections.rows ==> r == Err(NullPointer)
      ensures n in inspections.rows ==> r == ImagePath(inspections.rows[n])
    {
      if n !in inspections.rows {
        return Err(NullPointer);
      }
      r := ImagePath(inspections.rows[n]);
    }
  }
}
