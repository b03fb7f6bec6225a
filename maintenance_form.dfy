/** The maintenance-record form: the colours and labels of the detection
    boxes drawn into the report, loading a saved record into the form, and
    the request body the form submits (MaintenanceRecordForm). */
module MaintenanceForm {
  import opened Common
  import MaintenanceRecords
  import InspectionUpload

  // ------------------------------------------------------- detection boxes

  /** The box colour: red for "pf", orange for "f", limegreen otherwise. */
  function BoxColor(className: Option<string>): string {
    if className == Some("pf") then "red" else if className == Some("f") then "orange" else "limegreen"
  }

  /** The report uses the upload page's colours, with limegreen for green. */
  lemma ColorsAgreeWithUploadPage(className: Option<string>)
    ensures BoxColor(className) == "limegreen" <==> InspectionUpload.BoxColor(className) == "green"
    ensures BoxColor(className) != "limegreen" ==> BoxColor(className) == InspectionUpload.BoxColor(className)
  {
  }

  /** A JavaScript string is truthy when it is present and not empty. */
  predicate Truthy(s: Option<string>) {
    s.Some? && s.value != ""
  }

  /** The label on a box: detectName || className || 'Unknown'. */
  function BoxLabel(detectName: Option<string>, className: Option<string>): (r: string)
    ensures r != ""
    ensures Truthy(detectName) ==> r == detectName.value
    ensures !Truthy(detectName) && Truthy(className) ==> r == className.value
    ensures !Truthy(detectName) && !Truthy(className) ==> r == "Unknown"
  {
    if Truthy(detectName) then detectName.value
    else if Truthy(className) then className.value
    else "Unknown"
  }

  /** The name on a line of the PDF's issue list: detectName || className,
      which may itself be missing or empty. */
  function PdfLabel(detectName: Option<string>, className: Option<string>): Option<string> {
    if Truthy(detectName) then detectName else className
  }

  /** The PDF list and the drawn box name a detection alike whenever it has
      some name; only a nameless one is "Unknown" on the box. */
  lemma PdfLabelMatchesBox(detectName: Option<string>, className: Option<string>)
    ensures Truthy(PdfLabel(detectName, className)) ==> PdfLabel(detectName, className).value == BoxLabel(detectName, className)
    ensures !Truthy(PdfLabel(detectName, className)) ==> BoxLabel(detectName, className) == "Unknown"
  {
  }

  // ------------------------------------------------------------ the form

  /** A numeric input: empty, or holding a number. */
  datatype FieldValue = Blank | Filled(v: real)

  datatype FormData = FormData(
    transformerNumber: string,
    inspectorName: Option<string>,
    transformerStatus: Option<string>,
    voltage: FieldValue,
    current: FieldValue,
    recommendedAction: Option<string>,
    additionalRemarks: Option<string>,
    otherNotes: Option<string>,
    inspectionsNumbers: seq<string>)

  /** A saved record as the form receives it. */
  datatype SavedRecord = SavedRecord(
    inspectorName: Option<string>,
    transformerStatus: Option<string>,
    voltage: Option<real>,
    current: Option<real>,
    recommendedAction: Option<string>,
    additionalRemarks: Option<string>,
    otherNotes: Option<string>,
    inspections: Option<seq<string>>)   // the numbers of its inspections

  /** `value || ''` on a number: null and 0 are both falsy. */
  function FalsyToBlank(value: Option<real>): (r: FieldValue)
    ensures r.Blank? <==> value.None? || value.value == 0.0
    ensures r.Filled? ==> value == Some(r.v)
  {
    if value.None? || value.value == 0.0 then Blank else Filled(value.value)
  }

  /** loadExistingRecord as written: the route's transformer number (or ''),
      the record's texts, its numbers through FalsyToBlank, and its
      inspections' numbers (or none). */
  function LoadExistingRecord(route: Option<string>, record: SavedRecord): FormData {
    FormData(route.GetOr(""), record.inspectorName, record.transformerStatus,
             FalsyToBlank(record.voltage), FalsyToBlank(record.current),
             record.recommendedAction, record.additionalRemarks, record.otherNotes,
             record.inspections.GetOr([]))
  }

  /** `field === '' ? null : Number(field)`. */
  function ToRequestNumber(f: FieldValue): (r: Option<real>)
    ensures r.None? <==> f.Blank?
  {
    match f
    case Blank => None
    case Filled(v) => Some(v)
  }

  /** handleSubmit's body: the numbers become null when blank, and the
      inspection numbers sent are those of every available inspection, in
      order, whatever the form had selected. */
  function SubmitBody(form: FormData, available: seq<string>): (r: MaintenanceRecords.MaintenanceReportRequest)
    ensures r.inspectionsNumbers == Some(available)
    ensures r.voltage.None? <==> form.voltage.Blank?
    ensures r.current.None? <==> form.current.Blank?
    ensures r.transformerNumber == form.transformerNumber
  {
    MaintenanceRecords.MaintenanceReportRequest(
      Some(available), form.transformerNumber,
      ToRequestNumber(form.voltage), ToRequestNumber(form.current),
      form.recommendedAction, form.additionalRemarks, form.otherNotes, form.inspectorName)
  }

  /** The selection in the form never reaches the request. */
  lemma SubmitIgnoresSelection(form: FormData, selected: seq<string>, available: seq<string>)
    ensures SubmitBody(form.(inspectionsNumbers := selected), available) == SubmitBody(form, available)
  {
  }

  /** A saved record whose voltage is 0 comes back as an empty field, and
      resubmitting it sends no voltage at all. */
  lemma ZeroVoltageLost(record: SavedRecord, route: Option<string>, available: seq<string>)
    requires record.voltage == Some(0.0)
    ensures LoadExistingRecord(route, record).voltage == Blank
    ensures SubmitBody(LoadExistingRecord(route, record), available).voltage == None
  {
  }

  /** Apart from a zero, the as-written load round-trips the numbers. */
  lemma NonZeroVoltageKept(record: SavedRecord, route: Option<string>, available: seq<string>)
    requires record.voltage != Some(0.0)
    ensures SubmitBody(LoadExistingRecord(route, record), available).voltage == record.voltage
  {
  }

  /** `value ?? ''`: only a missing number leaves the field empty. */
  function MissingToBlank(value: Option<real>): (r: FieldValue)
    ensures r.Blank? <==> value.None?
  {
    if value.None? then Blank else Filled(value.value)
  }

  /** The load as evidently intended: a measured 0 is kept. */
  function LoadExistingRecordFixed(route: Option<string>, record: SavedRecord): FormData {
    LoadExistingRecord(route, record).(voltage := MissingToBlank(record.voltage), current := MissingToBlank(record.current))
  }

  /** Loading a saved record and submitting it again sends back exactly the
      record's readings and texts. */
  lemma LoadThenSubmitRoundTrip(record: SavedRecord, route: Option<string>, available: seq<string>)
    ensures var body := SubmitBody(LoadExistingRecordFixed(route, record), available);
      && body.voltage == record.voltage && body.current == record.current
      && body.inspectorName == record.inspectorName
      && body.recommendedAction == record.recommendedAction
      && body.additionalRemarks == record.additionalRemarks
      && body.otherNotes == record.otherNotes
      && body.transformerNumber == route.GetOr("")
  {
  }
}
