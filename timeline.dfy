/** The annotation timeline: the audit event an edit or a delete of a
    detection leaves behind (InspectionDetectsTimeline), the store of saved
    events and its newest-first queries. */
module Timeline {
  import opened Common
  import opened Detections

  /** An event as the service builds it, before and after it is persisted. */
  class TimelineEntity {
    var anotationId: Option<nat>   // assigned by the store
    var detect: Option<nat>        // the detection's id; None while that detection is unsaved
    var inspection: string         // copied from the detection
    var eventType: string
    var author: Option<string>
    var comment: Option<string>
    var createdAt: Option<nat>     // set by the persist hook

    /** The event constructor: the inspection is taken from the detection at
        construction time; no id and no timestamp yet. */
    constructor (detectId: Option<nat>, d: Detection, author: Option<string>, comment: Option<string>, eventType: string)
      ensures this.detect == detectId && this.inspection == d.inspection
      ensures this.author == author && this.comment == comment && this.eventType == eventType
      ensures this.anotationId.None? && this.createdAt.None?
    {
      this.anotationId := None;
      this.detect := detectId;
      this.inspection := d.inspection;
      this.author := author;
      this.comment := comment;
      this.eventType := eventType;
      this.createdAt := None;
    }

    /** The persist hook: stamps the current time and nothing else. */
    method OnCreate(now: nat)
      modifies this`createdAt
      ensures createdAt == Some(now)
    {
      createdAt := Some(now);
    }
  }

  /** A saved event. */
  datatype TimelineEvent = TimelineEvent(
    id: nat, detect: Option<nat>, inspection: string, eventType: string,
    author: Option<string>, comment: Option<string>, createdAt: nat)

  function CreatedAt(e: TimelineEvent): int { e.createdAt }

  // ------------------------------------------------------------ queries

  /** findByInspection_InspectionNumberOrderByCreatedAtDesc: exactly the
      events of the inspection, newest first (equal timestamps in no
      promised order). */
  function EventsOfInspection(events: seq<TimelineEvent>, inspection: string): (r: seq<TimelineEvent>)
    ensures SortedDesc(r, CreatedAt)
    ensures multiset(r) == multiset(Filter(events, (e: TimelineEvent) => e.inspection == inspection))
    ensures forall e :: e in r <==> e in events && e.inspection == inspection
  {
    var f := Filter(events, (e: TimelineEvent) => e.inspection == inspection);
    var r := SortDesc(f, CreatedAt);
    assert forall e :: e in r <==> e in multiset(r);
    assert forall e :: e in f <==> e in multiset(f);
    r
  }

  /** findByDetect_DetectIdOrderByCreatedAtDesc: exactly the events of one
      detection, newest first. */
  function EventsOfDetect(events: seq<TimelineEvent>, detectId: nat): (r: seq<TimelineEvent>)
    ensures SortedDesc(r, CreatedAt)
    ensures multiset(r) == multiset(Filter(events, (e: TimelineEvent) => e.detect == Some(detectId)))
    ensures forall e :: e in r <==> e in events && e.detect == Some(detectId)
  {
    var f := Filter(events, (e: TimelineEvent) => e.detect == Some(detectId));
    var r := SortDesc(f, CreatedAt);
    assert forall e :: e in r <==> e in multiset(r);
    assert forall e :: e in f <==> e in multiset(f);
    r
  }

  /** Appending an event adds it to the listing of its detection, once, and
      changes the listing of every other detection not at all. */
  lemma DetectEventsAfterAppend(events: seq<TimelineEvent>, e: TimelineEvent, detectId: nat)
    ensures multiset(EventsOfDetect(events + [e], detectId))
         == multiset(EventsOfDetect(events, detectId)) + if e.detect == Some(detectId) then multiset{e} else multiset{}
  {
    FilterAppend(events, [e], (e: TimelineEvent) => e.detect == Some(detectId));
  }

  /** Likewise for the listing of an inspection. */
  lemma InspectionEventsAfterAppend(events: seq<TimelineEvent>, e: TimelineEvent, inspection: string)
    ensures multiset(EventsOfInspection(events + [e], inspection))
         == multiset(EventsOfInspection(events, inspection)) + if e.inspection == inspection then multiset{e} else multiset{}
  {
    FilterAppend(events, [e], (e: TimelineEvent) => e.inspection == inspection);
  }

  /** The store after the bulk delete by inspection number. */
  function EventsWithoutInspection(events: seq<TimelineEvent>, inspection: string): seq<TimelineEvent> {
    Filter(events, (e: TimelineEvent) => e.inspection != inspection)
  }

  /** The bulk delete removes every event of the inspection and keeps every
      other event, in order. */
  lemma {:induction false} EventsWithoutInspectionKeeps(events: seq<TimelineEvent>, inspection: string, other: string)
    requires other != inspection
    ensures EventsOfInspection(EventsWithoutInspection(events, inspection), inspection) == []
    ensures Filter(EventsWithoutInspection(events, inspection), (e: TimelineEvent) => e.inspection == other)
         == Filter(events, (e: TimelineEvent) => e.inspection == other)
    ensures IsSubsequence(EventsWithoutInspection(events, inspection), events)
  {
    var rest := EventsWithoutInspection(events, inspection);
    FilterNone(rest, (e: TimelineEvent) => e.inspection == inspection);
    FilterFilter(events, (e: TimelineEvent) => e.inspection == other, (e: TimelineEvent) => e.inspection != inspection);
    FilterIsSubsequence(events, (e: TimelineEvent) => e.inspection != inspection);
  }

  /** Repeating the bulk delete changes nothing. */
  lemma EventsWithoutInspectionIdempotent(events: seq<TimelineEvent>, inspection: string)
    ensures EventsWithoutInspection(EventsWithoutInspection(events, inspection), inspection)
         == EventsWithoutInspection(events, inspection)
  {
    FilterIdempotent(events, (e: TimelineEvent) => e.inspection != inspection);
  }

  // ------------------------------------------------------------ the store

  ghost predicate IdsIncrease(events: seq<TimelineEvent>) {
    Pairwise(events, (a: TimelineEvent, b: TimelineEvent) => a.id < b.id)
  }

  /** The rows of InspectionDetectsTimeline in insertion order; ids come
      from an increasing sequence. */
  class TimelineRepo {
    var events: seq<TimelineEvent>
    var nextId: nat

    ghost predicate Valid()
      reads this
    {
      (forall e :: e in events ==> e.id < nextId) && IdsIncrease(events)
    }

    constructor ()
      ensures Valid() && events == [] && nextId == 0
    {
      events := [];
      nextId := 0;
    }

    /** save: the persist hook stamps the entity, the store assigns its id,
        and the event is appended. */
    method Save(t: TimelineEntity, now: nat) returns (saved: TimelineEvent)
      requires Valid()
      modifies this, t
      ensures Valid()
      ensures t.createdAt == Some(now) && t.anotationId == Some(old(nextId))
      ensures t.detect == old(t.detect) && t.inspection == old(t.inspection) && t.eventType == old(t.eventType)
      ensures t.author == old(t.author) && t.comment == old(t.comment)
      ensures saved == TimelineEvent(old(nextId), t.detect, t.inspection, t.eventType, t.author, t.comment, now)
      ensures events == old(events) + [saved] && nextId == old(nextId) + 1
    {
      t.OnCreate(now);
      t.anotationId := Some(nextId);
      saved := TimelineEvent(nextId, t.detect, t.inspection, t.eventType, t.author, t.comment, now);
      events := events + [saved];
      nextId := nextId + 1;
    }

    method DeleteByInspectionNumber(inspection: string)
      requires Valid()
      modifies this
      ensures Valid()
      ensures events == EventsWithoutInspection(old(events), inspection) && nextId == old(nextId)
    {
      FilterPairwise(events, (e: TimelineEvent) => e.inspection != inspection, (a: TimelineEvent, b: TimelineEvent) => a.id < b.id);
      events := EventsWithoutInspection(events, inspection);
    }
  }
}
