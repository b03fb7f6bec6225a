/** The inspection entity and the repository of inspections, shared by the
    inspection, detection and maintenance-record services. */
module InspectionStore {
  import opened Common

  /** An inspection row. `transformer` is the number of the linked
      transformer, None when the link is null. */
  datatype Inspection = Inspection(
    inspectionNumber: string,
    transformer: Option<string>,
    inspectionDate: Option<string>,
    inspectionTime: Option<string>,
    branch: Option<string>,
    maintenanceDate: Option<string>,
    maintenanceTime: Option<string>,
    status: Option<string>,
    imageUrl: Option<string>,
    predictionJson: Option<string>)

  /** The rows of the inspection table, keyed by inspection number. */
  class InspectionRepo {
    var rows: map<string, Inspection>

    ghost predicate Valid()
      reads this
    {
      forall n :: n in rows ==> rows[n].inspectionNumber == n
    }

    constructor ()
      ensures Valid() && rows == map[]
    {
      rows := map[];
    }
  }
}
