/** The detection lifecycle: ingesting a model batch, adding, editing and
    deleting single detections, and the audit events an edit or a delete
    leaves on the timeline (DetectsService). */
module DetectionService {
  import opened Common
  import opened Detections
  import opened Timeline
  import opened InspectionStore

  /** The request body of add, update and delete. The numeric fields are
      boxed and may be null. */
  datatype UpdateDetectionRequest = UpdateDetectionRequest(
    width: Option<Double>, height: Option<Double>, x: Option<Double>, y: Option<Double>,
    confidence: Option<Double>, classId: Option<int>,
    className: Option<string>, parentId: Option<string>,
    author: Option<string>, comment: Option<string>)

  /** A saved detection together with its id. */
  datatype Stored = Stored(detectId: nat, detection: Detection)

  /** Every boxed number is present: unboxing them into the entity's
      primitive fields cannot throw. */
  predicate Complete(req: UpdateDetectionRequest) {
    req.width.Some? && req.height.Some? && req.x.Some? && req.y.Some?
    && req.confidence.Some? && req.classId.Some?
  }

  /** The detection add builds: the request's fields, no detection id and
      no detect name. */
  function Added(req: UpdateDetectionRequest, inspection: string): (d: Detection)
    requires Complete(req)
  {
    Detection(inspection, None, req.width.value, req.height.value, req.x.value, req.y.value,
              req.confidence.value, req.classId.value, req.className, None, req.parentId)
  }

  /** The detection update leaves: geometry, confidence and class id from the
      request, every other field as it was. */
  function Edited(d: Detection, req: UpdateDetectionRequest): (r: Detection)
    requires Complete(req)
  {
    d.(width := req.width.value, height := req.height.value, x := req.x.value, y := req.y.value,
       confidence := req.confidence.value, classId := req.classId.value)
  }

  /** An edit never touches the identity of the detection: its inspection,
      class name, parent id, detection id and detect name survive. Editing
      twice with the same request is editing once. */
  lemma EditedKeepsIdentity(d: Detection, req: UpdateDetectionRequest)
    requires Complete(req)
    ensures Edited(d, req).inspection == d.inspection && Edited(d, req).detectName == d.detectName
    ensures Edited(d, req).className == d.className && Edited(d, req).parentId == d.parentId
    ensures Edited(d, req).detectionId == d.detectionId
    ensures Edited(Edited(d, req), req) == Edited(d, req)
  {
  }

  /** Events appear on the timeline in the order of their timestamps. */
  ghost predicate TimeOrdered(events: seq<TimelineEvent>) {
    Pairwise(events, (a: TimelineEvent, b: TimelineEvent) => a.createdAt <= b.createdAt)
  }

  class DetectsService {
    const detects: DetectionRepo
    const timeline: TimelineRepo
    const inspections: InspectionRepo
    /** The wall clock, as a counter that only moves forward. */
    var clock: nat

    ghost predicate Valid()
      reads this, detects, timeline
    {
      detects.Valid() && timeline.Valid()
      && (forall e :: e in timeline.events ==> e.createdAt <= clock)
      && TimeOrdered(timeline.events)
    }

    constructor (detects: DetectionRepo, timeline: TimelineRepo, inspections: InspectionRepo)
      requires detects.Valid() && timeline.Valid() && timeline.events == []
      ensures Valid() && clock == 0
      ensures this.detects == detects && this.timeline == timeline && this.inspections == inspections
    {
      this.detects := detects;
      this.timeline := timeline;
      this.inspections := inspections;
      clock := 0;
    }

    /** Appends an event stamped with the current time. */
    method Record(detectId: nat, d: Detection, author: Option<string>, comment: Option<string>, eventType: string)
      requires Valid()
      modifies timeline
      ensures Valid()
      ensures timeline.nextId == old(timeline.nextId) + 1
      ensures timeline.events == old(timeline.events)
        + [TimelineEvent(old(timeline.nextId), Some(detectId), d.inspection, eventType, author, comment, clock)]
    {
      var t := new TimelineEntity(Some(detectId), d, author, comment, eventType);
      var saved := timeline.Save(t, clock);
    }

    /** save: one new row per prediction of the batch, none for a null
        group, and no timeline event. A null list of outputs throws before
        anything is stored. */
    method Save(result: AnalysisResult, inspection: string) returns (r: Outcome)
      requires Valid()
      modifies detects
      ensures Valid()
      ensures result.outputs.None? ==> r == Fail(NullPointer) && unchanged(detects)
      ensures result.outputs.Some? ==>
        && r == Pass
        && detects.nextId == old(detects.nextId) + |Flatten(result.outputs.value)|
        && detects.rows == old(detects.rows) + Rows(old(detects.nextId), Flatten(result.outputs.value), inspection)
      ensures timeline.events == old(timeline.events)
    {
      if result.outputs.None? {
        return Fail(NullPointer);
      }
      Ingest(detects, result.outputs.value, inspection);
      r := Pass;
    }

    /** get: the detections of one inspection. */
    method Get(inspection: string) returns (r: map<nat, Detection>)
      ensures r == OfInspection(detects.rows, inspection)
    {
      r := OfInspection(detects.rows, inspection);
    }

    /** add: fails with NotFound when the inspection does not exist and with
        a null-pointer error when a number is missing; otherwise stores the
        new detection. The "add" event it builds is never saved. */
    method Add(req: UpdateDetectionRequest, inspection: string) returns (r: Result<Stored>)
      requires Valid()
      modifies detects
      ensures Valid()
      ensures inspection !in inspections.rows ==> r == Err(NotFound) && unchanged(detects)
      ensures inspection in inspections.rows && !Complete(req) ==> r == Err(NullPointer) && unchanged(detects)
      ensures inspection in inspections.rows && Complete(req) ==>
        && r == Ok(Stored(old(detects.nextId), Added(req, inspection)))
        && detects.rows == old(detects.rows)[old(detects.nextId) := Added(req, inspection)]
        && detects.nextId == old(detects.nextId) + 1
      ensures timeline.events == old(timeline.events)
    {
      if inspection !in inspections.rows {
        return Err(NotFound);
      }
      if !Complete(req) {
        return Err(NullPointer);
      }
      var d := Added(req, inspection);
      var unsaved := new TimelineEntity(None, d, req.author, req.comment, "add");
      var id := detects.Insert(d);
      r := Ok(Stored(id, d));
    }

    /** update: NotFound or a null-pointer error leave both stores as they
        were; otherwise the detection is edited and exactly one "edit" event
        with the request's author and comment is appended. */
    method Update(req: UpdateDetectionRequest, detectId: nat, elapsed: nat) returns (r: Result<Stored>)
      requires Valid()
      modifies this, detects, timeline
      ensures Valid()
      ensures clock == old(clock) + elapsed
      ensures detectId !in old(detects.rows) ==> r == Err(NotFound) && unchanged(detects, timeline)
      ensures detectId in old(detects.rows) && !Complete(req) ==> r == Err(NullPointer) && unchanged(detects, timeline)
      ensures detectId in old(detects.rows) && Complete(req) ==>
        var d := Edited(old(detects.rows[detectId]), req);
        && r == Ok(Stored(detectId, d))
        && detects.rows == old(detects.rows)[detectId := d]
        && detects.nextId == old(detects.nextId)
        && timeline.events == old(timeline.events)
             + [TimelineEvent(old(timeline.nextId), Some(detectId), d.inspection, "edit", req.author, req.comment, clock)]
        && timeline.nextId == old(timeline.nextId) + 1
    {
      clock := clock + elapsed;
      if detectId !in detects.rows {
        return Err(NotFound);
      }
      if !Complete(req) {
        return Err(NullPointer);
      }
      var d := Edited(detects.rows[detectId], req);
      detects.Put(detectId, d);
      Record(detectId, d, req.author, req.comment, "edit");
      r := Ok(Stored(detectId, d));
    }

    /** deleteByDetectId: NotFound leaves both stores as they were; otherwise
        one "edit" event is appended and that detection, and only that one,
        is removed. Its earlier events stay. */
    method DeleteByDetectId(req: UpdateDetectionRequest, detectId: nat, elapsed: nat) returns (r: Outcome)
      requires Valid()
      modifies this, detects, timeline
      ensures Valid()
      ensures clock == old(clock) + elapsed
      ensures detectId !in old(detects.rows) ==> r == Fail(NotFound) && unchanged(detects, timeline)
      ensures detectId in old(detects.rows) ==>
        && r == Pass
        && detects.rows == old(detects.rows) - {detectId}
        && detects.nextId == old(detects.nextId)
        && timeline.events == old(timeline.events)
             + [TimelineEvent(old(timeline.nextId), Some(detectId), old(detects.rows[detectId]).inspection,
                              "edit", req.author, req.comment, clock)]
        && timeline.nextId == old(timeline.nextId) + 1
    {
      clock := clock + elapsed;
      if detectId !in detects.rows {
        return Fail(NotFound);
      }
      Record(detectId, detects.rows[detectId], req.author, req.comment, "edit");
      detects.DeleteById(detectId);
      r := Pass;
    }

    /** deleteByInspectionNumber: removes the inspection's detections and no
        other; it never fails, and its timeline events stay. */
    method DeleteByInspectionNumber(inspection: string)
      requires Valid()
      modifies detects
      ensures Valid()
      ensures detects.rows == RemoveInspection(old(detects.rows), inspection)
      ensures detects.nextId == old(detects.nextId)
      ensures timeline.events == old(timeline.events)
    {
      detects.DeleteByInspectionNumber(inspection);
    }

    /** timelineget: the inspection's events, newest first. */
    method TimelineGet(inspection: string) returns (r: seq<TimelineEvent>)
      ensures r == EventsOfInspection(timeline.events, inspection)
    {
      r := EventsOfInspection(timeline.events, inspection);
    }

    /** The repository's bulk delete of an inspection's events. */
    method DeleteTimelineByInspection(inspection: string)
      requires Valid()
      modifies timeline
      ensures Valid()
      ensures timeline.events == EventsWithoutInspection(old(timeline.events), inspection)
    {
      FilterPairwise(timeline.events, (e: TimelineEvent) => e.inspection != inspection,
                     (a: TimelineEvent, b: TimelineEvent) => a.createdAt <= b.createdAt);
      timeline.DeleteByInspectionNumber(inspection);
    }
  }
}
