/** Saving a maintenance record: the requested inspection numbers are
    resolved against the inspection table, the transformer is looked up, and
    the report fields are copied (MaintenanceRecordService). */
module MaintenanceRecords {
  import opened Common
  import opened InspectionStore
  import opened Transformers

  /** The request body of save. */
  datatype MaintenanceReportRequest = MaintenanceReportRequest(
    inspectionsNumbers: Option<seq<string>>,
    transformerNumber: string,
    voltage: Option<real>, current: Option<real>,
    recommendedAction: Option<string>, additionalRemarks: Option<string>, otherNotes: Option<string>,
    inspectorName: Option<string>)

  /** A maintenance record. */
  datatype MaintenanceRecord = MaintenanceRecord(
    inspectorName: Option<string>,
    transformerStatus: Option<string>,
    voltage: Option<real>, current: Option<real>,
    recommendedAction: Option<string>, additionalRemarks: Option<string>, otherNotes: Option<string>,
    transformer: Transformer?,
    inspections: seq<Inspection>)

  /** The inspections the ids name, in request order, skipping unknown ids. */
  function Resolved(ids: seq<string>, rows: map<string, Inspection>): (r: seq<Inspection>)
    ensures |r| <= |ids|
  {
    if ids == [] then []
    else (if ids[0] in rows then [rows[ids[0]]] else []) + Resolved(ids[1..], rows)
  }

  /** Resolving a concatenation resolves each part, in order. */
  lemma {:induction false} ResolvedAppend(ids: seq<string>, more: seq<string>, rows: map<string, Inspection>)
    ensures Resolved(ids + more, rows) == Resolved(ids, rows) + Resolved(more, rows)
  {
    if ids == [] {
      assert ids + more == more;
    } else {
      assert (ids + more)[1..] == ids[1..] + more;
      ResolvedAppend(ids[1..], more, rows);
    }
  }

  /** The known ids, each mapped to its inspection: one entry per known id,
      so an id listed twice yields its inspection twice. */
  function KnownIds(ids: seq<string>, rows: map<string, Inspection>): seq<string> {
    Filter(ids, (id: string) => id in rows)
  }

  lemma {:induction false} ResolvedIsKnownIds(ids: seq<string>, rows: map<string, Inspection>)
    ensures |Resolved(ids, rows)| == |KnownIds(ids, rows)|
    ensures forall k :: 0 <= k < |KnownIds(ids, rows)| ==>
      KnownIds(ids, rows)[k] in rows && Resolved(ids, rows)[k] == rows[KnownIds(ids, rows)[k]]
  {
    if ids != [] {
      ResolvedIsKnownIds(ids[1..], rows);
      if ids[0] in rows {
        assert KnownIds(ids, rows) == [ids[0]] + KnownIds(ids[1..], rows);
        assert Resolved(ids, rows) == [rows[ids[0]]] + Resolved(ids[1..], rows);
      } else {
        assert KnownIds(ids, rows) == KnownIds(ids[1..], rows);
        assert Resolved(ids, rows) == Resolved(ids[1..], rows);
      }
    }
  }

  /** An inspection is in the result exactly when some requested id names it. */
  lemma {:induction false} ResolvedMembers(ids: seq<string>, rows: map<string, Inspection>, i: Inspection)
    ensures i in Resolved(ids, rows) <==> exists id :: id in ids && id in rows && rows[id] == i
  {
    if ids != [] {
      ResolvedMembers(ids[1..], rows, i);
      if exists id :: id in ids && id in rows && rows[id] == i {
        var id :| id in ids && id in rows && rows[id] == i;
        if id != ids[0] {
          assert id in ids[1..];
        }
      }
    }
  }

  /** The lookup loop of save. */
  method ResolveInspections(ids: seq<string>, repo: InspectionRepo) returns (found: seq<Inspection>)
    ensures found == Resolved(ids, repo.rows)
  {
    found := [];
    var i := 0;
    while i < |ids|
      invariant 0 <= i <= |ids|
      invariant found == Resolved(ids[..i], repo.rows)
    {
      var step := if ids[i] in repo.rows then [repo.rows[ids[i]]] else [];
      ResolvedAppend(ids[..i], [ids[i]], repo.rows);
      assert Resolved([ids[i]], repo.rows) == step + Resolved([], repo.rows);
      found := found + step;
      assert ids[..i + 1] == ids[..i] + [ids[i]];
      i := i + 1;
    }
    assert ids[..i] == ids;
  }

  class MaintenanceRecordService {
    const inspections: InspectionRepo
    const transformers: TransformerService
    var records: seq<MaintenanceRecord>

    constructor (inspections: InspectionRepo, transformers: TransformerService)
      ensures this.inspections == inspections && this.transformers == transformers && records == []
    {
      this.inspections := inspections;
      this.transformers := transformers;
      records := [];
    }

    /** save: a null list of inspection numbers throws; otherwise the
        resolved inspections, the looked-up transformer (null when unknown)
        and the report fields are stored. The transformer status is never
        set. */
    method Save(req: MaintenanceReportRequest) returns (r: Result<MaintenanceRecord>)
      modifies this
      ensures req.inspectionsNumbers.None? ==> r == Err(NullPointer) && records == old(records)
      ensures req.inspectionsNumbers.Some? ==>
        && r.Ok?
        && r.value.inspections == Resolved(req.inspectionsNumbers.value, inspections.rows)
        && r.value.transformer == (if req.transformerNumber in transformers.repo then transformers.repo[req.transformerNumber] else null)
        && r.value.voltage == req.voltage && r.value.current == req.current
        && r.value.recommendedAction == req.recommendedAction
        && r.value.additionalRemarks == req.additionalRemarks
        && r.value.otherNotes == req.otherNotes && r.value.inspectorName == req.inspectorName
        && r.value.transformerStatus.None?
        && records == old(records) + [r.value]
    {
      if req.inspectionsNumbers.None? {
        return Err(NullPointer);
      }
      var found := ResolveInspections(req.inspectionsNumbers.value, inspections);
      var transformer := transformers.Get(req.transformerNumber);
      var record := MaintenanceRecord(req.inspectorName, None, req.voltage, req.current,
                                      req.recommendedAction, req.additionalRemarks, req.otherNotes,
                                      transformer, found);
      records := records + [record];
      r := Ok(record);
    }
  }
}
