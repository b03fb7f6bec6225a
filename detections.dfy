/** Detection rows produced by the defect-detection model, the nested batch
    they arrive in, and the repository that stores them (the rows of
    InspectionModelDetects keyed by their generated id). */
module Detections {
  import opened Common

  /** A Java double: only ever copied, never computed on. */
  type Double = real

  /** One prediction of the detection model. */
  datatype RawDetection = RawDetection(
    width: Double, height: Double, x: Double, y: Double, confidence: Double,
    classId: int, className: Option<string>, detectionId: Option<string>, parentId: Option<string>)

  /** `predictions.predictions`: the list may be null. */
  datatype PredictionGroup = PredictionGroup(predictions: Option<seq<RawDetection>>)

  /** One output of the batch: its `predictions` may be null. */
  datatype ModelOutput = ModelOutput(predictions: Option<PredictionGroup>)

  /** The whole analysis result: the list of outputs may be null. */
  datatype AnalysisResult = AnalysisResult(outputs: Option<seq<ModelOutput>>)

  /** A stored detection. Its id is the key it is stored under. */
  datatype Detection = Detection(
    inspection: string,
    detectName: Option<string>,
    width: Double, height: Double, x: Double, y: Double, confidence: Double,
    classId: int,
    className: Option<string>, detectionId: Option<string>, parentId: Option<string>)

  // ------------------------------------------------------------ the batch

  /** The predictions of one output; a null group contributes nothing. */
  function GroupOf(out: ModelOutput): seq<RawDetection> {
    match out.predictions
    case None => []
    case Some(g) => g.predictions.GetOr([])
  }

  /** All predictions of all outputs, in batch order. */
  function Flatten(outs: seq<ModelOutput>): seq<RawDetection> {
    if outs == [] then [] else GroupOf(outs[0]) + Flatten(outs[1..])
  }

  /** Flattening one more output appends its predictions at the end. */
  lemma {:induction false} FlattenAppend(outs: seq<ModelOutput>, out: ModelOutput)
    ensures Flatten(outs + [out]) == Flatten(outs) + GroupOf(out)
  {
    if outs == [] {
      assert [out][1..] == [];
    } else {
      assert (outs + [out])[1..] == outs[1..] + [out];
      FlattenAppend(outs[1..], out);
    }
  }

  /** A raw prediction is in the flattened batch exactly when it is in the
      non-null group of some output. */
  lemma {:induction false} FlattenMembers(outs: seq<ModelOutput>, d: RawDetection)
    ensures d in Flatten(outs) <==> exists i :: 0 <= i < |outs| && d in GroupOf(outs[i])
  {
    if outs != [] {
      FlattenMembers(outs[1..], d);
      if d in Flatten(outs[1..]) {
        var i :| 0 <= i < |outs[1..]| && d in GroupOf(outs[1..][i]);
        assert outs[i + 1] == outs[1..][i];
      }
      if exists i :: 0 <= i < |outs| && d in GroupOf(outs[i]) {
        var i :| 0 <= i < |outs| && d in GroupOf(outs[i]);
        if i > 0 {
          assert outs[1..][i - 1] == outs[i];
        }
      }
    }
  }

  /** The number of flattened predictions is the sum of the group sizes. */
  function GroupSizes(outs: seq<ModelOutput>): nat {
    if outs == [] then 0 else |GroupOf(outs[0])| + GroupSizes(outs[1..])
  }

  lemma {:induction false} FlattenLength(outs: seq<ModelOutput>)
    ensures |Flatten(outs)| == GroupSizes(outs)
  {
    if outs != [] {
      FlattenLength(outs[1..]);
    }
  }

  /** The row stored for a raw prediction: every field copied, linked to the
      inspection, no detect name. */
  function FromRaw(d: RawDetection, inspection: string): Detection {
    Detection(inspection, None, d.width, d.height, d.x, d.y, d.confidence,
              d.classId, d.className, d.detectionId, d.parentId)
  }

  /** The rows an ingest creates: raws[i] under id start + i. */
  function Rows(start: nat, raws: seq<RawDetection>, inspection: string): map<nat, Detection> {
    map k: nat | start <= k < start + |raws| :: RowAt(start, raws, inspection, k)
  }

  function RowAt(start: nat, raws: seq<RawDetection>, inspection: string, k: nat): Detection
    requires start <= k < start + |raws|
  {
    FromRaw(raws[k - start], inspection)
  }

  lemma RowsSnoc(start: nat, raws: seq<RawDetection>, d: RawDetection, inspection: string)
    ensures Rows(start, raws + [d], inspection)
         == Rows(start, raws, inspection)[start + |raws| := FromRaw(d, inspection)]
  {
    var l := Rows(start, raws + [d], inspection);
    var r := Rows(start, raws, inspection)[start + |raws| := FromRaw(d, inspection)];
    assert l.Keys == r.Keys;
    forall k | k in l ensures l[k] == r[k] {
      if k < start + |raws| {
        assert (raws + [d])[k - start] == raws[k - start];
      }
    }
  }

  // ------------------------------------------------------------ queries

  /** findByInspection_InspectionNumber: the rows of one inspection. */
  function OfInspection(rows: map<nat, Detection>, inspection: string): (r: map<nat, Detection>)
    ensures forall k :: k in r <==> k in rows && rows[k].inspection == inspection
    ensures forall k :: k in r ==> r[k] == rows[k]
  {
    map k | k in rows && rows[k].inspection == inspection :: rows[k]
  }

  /** The store after the bulk delete by inspection number. */
  function RemoveInspection(rows: map<nat, Detection>, inspection: string): (r: map<nat, Detection>)
    ensures forall k :: k in r <==> k in rows && rows[k].inspection != inspection
    ensures forall k :: k in r ==> r[k] == rows[k]
  {
    map k | k in rows && rows[k].inspection != inspection :: rows[k]
  }

  /** Every row belongs either to the inspection or to the rest, never both. */
  lemma PartitionByInspection(rows: map<nat, Detection>, inspection: string)
    ensures OfInspection(rows, inspection).Keys !! RemoveInspection(rows, inspection).Keys
    ensures OfInspection(rows, inspection) + RemoveInspection(rows, inspection) == rows
  {
    var u := OfInspection(rows, inspection) + RemoveInspection(rows, inspection);
    assert u.Keys == rows.Keys;
  }

  /** After the bulk delete the inspection has no rows and every other
      inspection keeps exactly the rows it had. */
  lemma OfInspectionAfterRemove(rows: map<nat, Detection>, removed: string, inspection: string)
    ensures OfInspection(RemoveInspection(rows, removed), inspection)
         == if inspection == removed then map[] else OfInspection(rows, inspection)
  {
    var l := OfInspection(RemoveInspection(rows, removed), inspection);
    if inspection == removed {
      assert l.Keys == {};
    } else {
      assert l.Keys == OfInspection(rows, inspection).Keys;
    }
  }

  /** Deleting the same inspection twice is deleting it once, and deleting
      an inspection with no rows changes nothing. */
  lemma RemoveInspectionIdempotent(rows: map<nat, Detection>, inspection: string)
    ensures RemoveInspection(RemoveInspection(rows, inspection), inspection) == RemoveInspection(rows, inspection)
    ensures OfInspection(rows, inspection) == map[] ==> RemoveInspection(rows, inspection) == rows
  {
    var once := RemoveInspection(rows, inspection);
    assert RemoveInspection(once, inspection).Keys == once.Keys;
    if OfInspection(rows, inspection) == map[] {
      forall k | k in rows ensures rows[k].inspection != inspection {
        assert k !in OfInspection(rows, inspection);
      }
      assert once.Keys == rows.Keys;
    }
  }

  // ------------------------------------------------------------ the store

  /** The rows of InspectionModelDetects, keyed by the id the database
      generates from an increasing sequence. */
  class DetectionRepo {
    var rows: map<nat, Detection>
    var nextId: nat

    ghost predicate Valid()
      reads this
    {
      forall k :: k in rows ==> k < nextId
    }

    constructor ()
      ensures Valid() && rows == map[] && nextId == 0
    {
      rows := map[];
      nextId := 0;
    }

    /** save on a new row: it gets the next id. */
    method Insert(d: Detection) returns (id: nat)
      requires Valid()
      modifies this
      ensures Valid()
      ensures id == old(nextId) && id !in old(rows)
      ensures rows == old(rows)[id := d] && nextId == old(nextId) + 1
    {
      id := nextId;
      rows := rows[id := d];
      nextId := nextId + 1;
    }

    /** save on an existing row: overwrite it in place. */
    method Put(id: nat, d: Detection)
      requires Valid() && id in rows
      modifies this
      ensures Valid()
      ensures rows == old(rows)[id := d] && nextId == old(nextId)
    {
      rows := rows[id := d];
    }

    method DeleteById(id: nat)
      requires Valid()
      modifies this
      ensures Valid()
      ensures rows == old(rows) - {id} && nextId == old(nextId)
    {
      rows := rows - {id};
    }

    method DeleteByInspectionNumber(inspection: string)
      requires Valid()
      modifies this
      ensures Valid()
      ensures rows == RemoveInspection(old(rows), inspection) && nextId == old(nextId)
    {
      rows := RemoveInspection(rows, inspection);
    }
  }

  /** One step of the inner loop: the next prediction lands under the next id. */
  lemma IngestStep(before: map<nat, Detection>, start: nat, done: seq<RawDetection>, group: seq<RawDetection>,
                   j: int, inspection: string)
    requires 0 <= j < |group|
    ensures before + Rows(start, done + group[..j + 1], inspection)
         == (before + Rows(start, done + group[..j], inspection))[start + |done| + j := FromRaw(group[j], inspection)]
  {
    assert (done + group[..j]) + [group[j]] == done + group[..j + 1];
    RowsSnoc(start, done + group[..j], group[j], inspection);
  }

  /** The inner loop of the ingest: one new row per prediction of a group,
      continuing the ids where the earlier groups left off. */
  method IngestGroup(repo: DetectionRepo, group: seq<RawDetection>, inspection: string,
                     ghost start: nat, ghost before: map<nat, Detection>, ghost done: seq<RawDetection>)
    requires repo.Valid()
    requires repo.nextId == start + |done| && repo.rows == before + Rows(start, done, inspection)
    modifies repo
    ensures repo.Valid()
    ensures repo.nextId == start + |done + group|
    ensures repo.rows == before + Rows(start, done + group, inspection)
  {
    var j := 0;
    assert done + group[..j] == done;
    while j < |group|
      invariant 0 <= j <= |group|
      invariant repo.Valid()
      invariant repo.nextId == start + |done| + j
      invariant repo.rows == before + Rows(start, done + group[..j], inspection)
    {
      var id := repo.Insert(FromRaw(group[j], inspection));
      IngestStep(before, start, done, group, j, inspection);
      j := j + 1;
    }
    assert group[..j] == group;
  }

  /** The ingest loop: one new row per prediction of every output whose
      predictions are present, in batch order, and nothing else. Skipping a
      null group is not an error. */
  method Ingest(repo: DetectionRepo, outs: seq<ModelOutput>, inspection: string)
    requires repo.Valid()
    modifies repo
    ensures repo.Valid()
    ensures repo.nextId == old(repo.nextId) + |Flatten(outs)|
    ensures repo.rows == old(repo.rows) + Rows(old(repo.nextId), Flatten(outs), inspection)
  {
    ghost var start := repo.nextId;
    ghost var before := repo.rows;
    var i := 0;
    assert outs[..i] == [];
    while i < |outs|
      invariant 0 <= i <= |outs|
      invariant repo.Valid()
      invariant repo.nextId == start + |Flatten(outs[..i])|
      invariant repo.rows == before + Rows(start, Flatten(outs[..i]), inspection)
    {
      var out := outs[i];
      if out.predictions.Some? && out.predictions.value.predictions.Some? {
        IngestGroup(repo, out.predictions.value.predictions.value, inspection, start, before, Flatten(outs[..i]));
      } else {
        assert Flatten(outs[..i]) + GroupOf(out) == Flatten(outs[..i]);
      }
      FlattenAppend(outs[..i], out);
      assert outs[..i + 1] == outs[..i] + [out];
      i := i + 1;
    }
    assert outs[..i] == outs;
  }
}
