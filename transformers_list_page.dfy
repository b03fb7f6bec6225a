/** The inspection history of one transformer: the table filter, the
    favourite star, and the status badge (TransformersListPage). */
module InspectionHistoryPage {
  import opened Common

  /** A row of the table as fetched; any field may be missing. */
  datatype InspectionRow = InspectionRow(
    inspectionNumber: Option<string>,
    inspectionDate: Option<string>,
    maintenanceDate: Option<string>,
    status: Option<string>,
    isFavorite: Option<bool>)

  /** The three filter boxes above the table. */
  datatype Filters = Filters(inspectionNumber: string, status: string, inspectionDate: string)

  const NoFilters: Filters := Filters("", "", "")

  /** (value?.toLowerCase() ?? "").includes(text.toLowerCase()). */
  predicate Includes(value: Option<string>, text: string) {
    Contains(Lower(value.GetOr("")), Lower(text))
  }

  /** The filter predicate: number and date are matched as case-insensitive
      substrings, the status exactly unless its box is empty. */
  predicate Matches(row: InspectionRow, f: Filters) {
    Includes(row.inspectionNumber, f.inspectionNumber)
    && (f.status == "" || row.status == Some(f.status))
    && Includes(row.inspectionDate, f.inspectionDate)
  }

  /** filteredInspections: the matching rows in table order. */
  function FilteredInspections(rows: seq<InspectionRow>, f: Filters): (r: seq<InspectionRow>)
    ensures forall row :: row in r <==> row in rows && Matches(row, f)
  {
    Filter(rows, (row: InspectionRow) => Matches(row, f))
  }

  /** Only the empty text is found in the empty string. */
  lemma {:induction false} ContainsInEmpty(sub: string)
    ensures Contains("", sub) <==> sub == ""
  {
    if sub == "" {
      ContainsEmpty("");
    }
  }

  /** A missing number or date reads as "" and passes only an empty box. */
  lemma MissingFieldPassesOnlyEmptyFilter(value: Option<string>, text: string)
    requires value.None?
    ensures Includes(value, text) <==> text == ""
  {
    ContainsInEmpty(Lower(text));
  }

  /** The filtered rows keep table order, and with every box empty nothing
      is filtered out. */
  lemma {:induction false} FilterLaws(rows: seq<InspectionRow>, f: Filters)
    ensures IsSubsequence(FilteredInspections(rows, f), rows)
    ensures FilteredInspections(rows, NoFilters) == rows
  {
    FilterIsSubsequence(rows, (row: InspectionRow) => Matches(row, f));
    forall row | row in rows ensures Matches(row, NoFilters) {
      ContainsEmpty(Lower(row.inspectionNumber.GetOr("")));
      ContainsEmpty(Lower(row.inspectionDate.GetOr("")));
    }
    FilterKeepsAll(rows, (row: InspectionRow) => Matches(row, NoFilters));
  }

  /** Narrowing the status box only ever removes rows. */
  lemma {:induction false} StatusNarrows(rows: seq<InspectionRow>, f: Filters, status: string)
    requires f.status == ""
    ensures IsSubsequence(FilteredInspections(rows, f.(status := status)), FilteredInspections(rows, f))
  {
    var g := f.(status := status);
    FilterFilter(rows, (row: InspectionRow) => Matches(row, g), (row: InspectionRow) => Matches(row, f));
    assert Filter(FilteredInspections(rows, f), (row: InspectionRow) => Matches(row, g)) == FilteredInspections(rows, g);
    FilterIsSubsequence(FilteredInspections(rows, f), (row: InspectionRow) => Matches(row, g));
  }

  /** The favourite flag, read the way `!i.isFavorite` reads it. */
  function Starred(row: InspectionRow): bool {
    row.isFavorite.GetOr(false)
  }

  /** One row after toggleFavorite. */
  function Toggled(row: InspectionRow, inspectionNumber: string): InspectionRow {
    if row.inspectionNumber == Some(inspectionNumber) then row.(isFavorite := Some(!Starred(row))) else row
  }

  /** toggleFavorite: every row with that number flips its star; every other
      row is left as it was. */
  function ToggleFavorite(rows: seq<InspectionRow>, inspectionNumber: string): (r: seq<InspectionRow>)
    ensures |r| == |rows|
    ensures forall k :: 0 <= k < |rows| && rows[k].inspectionNumber != Some(inspectionNumber) ==> r[k] == rows[k]
    ensures forall k :: 0 <= k < |rows| && rows[k].inspectionNumber == Some(inspectionNumber) ==>
      r[k] == rows[k].(isFavorite := Some(!Starred(rows[k])))
  {
    seq(|rows|, k requires 0 <= k < |rows| => Toggled(rows[k], inspectionNumber))
  }

  lemma ToggleCons(rows: seq<InspectionRow>, n: string)
    requires rows != []
    ensures ToggleFavorite(rows, n) == [Toggled(rows[0], n)] + ToggleFavorite(rows[1..], n)
  {
  }

  /** The fetched rows: each starts unstarred. */
  function FromFetched(rows: seq<InspectionRow>): (r: seq<InspectionRow>)
    ensures |r| == |rows|
    ensures forall k :: 0 <= k < |r| ==> r[k].isFavorite == Some(false)
  {
    seq(|rows|, k requires 0 <= k < |rows| => rows[k].(isFavorite := Some(false)))
  }

  /** Toggling the same number twice gives back the fetched rows. */
  lemma ToggleTwice(rows: seq<InspectionRow>, n: string)
    ensures ToggleFavorite(ToggleFavorite(FromFetched(rows), n), n) == FromFetched(rows)
  {
  }

  /** The star is not filtered on: filtering the toggled table shows the
      same rows, toggled, as toggling the filtered one. */
  lemma {:induction false} ToggleCommutesWithFilter(rows: seq<InspectionRow>, n: string, f: Filters)
    ensures FilteredInspections(ToggleFavorite(rows, n), f) == ToggleFavorite(FilteredInspections(rows, f), n)
  {
    if rows != [] {
      ToggleCommutesWithFilter(rows[1..], n, f);
      ToggleCons(rows, n);
      var toggled := ToggleFavorite(rows, n);
      assert toggled[0] == Toggled(rows[0], n) && toggled[1..] == ToggleFavorite(rows[1..], n);
      if Matches(rows[0], f) {
        ToggleCons(FilteredInspections(rows, f), n);
      }
    }
  }

  /** getStatusClass. */
  function StatusClass(status: string): string {
    match status
    case "In Progress" => "bg-gradient-to-r from-green-100 to-emerald-100 text-green-800 border-green-300"
    case "Pending" => "bg-gradient-to-r from-red-100 to-pink-100 text-red-800 border-red-300"
    case "Completed" => "bg-gradient-to-r from-gray-100 to-slate-100 text-gray-800 border-gray-300"
    case _ => "bg-gradient-to-r from-gray-100 to-slate-100 text-gray-600 border-gray-300"
  }

  /** getStatusIcon. */
  function StatusIcon(status: string): string {
    match status
    case "In Progress" => "\U{1F504}"
    case "Pending" => "\U{23F3}"
    case "Completed" => "\U{2705}"
    case _ => "\U{1F4CB}"
  }

  predicate KnownStatus(status: string) {
    status == "In Progress" || status == "Pending" || status == "Completed"
  }

  /** The three known statuses get three different icons, and every other
      status gets the default icon, distinct from all three. */
  lemma StatusIconsDistinct(a: string, b: string)
    ensures KnownStatus(a) && KnownStatus(b) ==> (StatusIcon(a) == StatusIcon(b) <==> a == b)
    ensures !KnownStatus(a) ==> StatusIcon(a) == "\U{1F4CB}"
    ensures KnownStatus(a) && !KnownStatus(b) ==> StatusIcon(a) != StatusIcon(b)
  {
  }

  // Helpers for StatusClassesDistinct, kept apart so that each literal is
  // evaluated in a small proof: the known classes differ in length, and
  // "Completed" differs from the default at index 54.
  lemma InProgressClass() ensures |StatusClass("In Progress")| == 78 {}
  lemma PendingClass() ensures |StatusClass("Pending")| == 69 {}
  lemma CompletedClass() ensures |StatusClass("Completed")| == 73 && StatusClass("Completed")[54] == '8' {}
  lemma DefaultClass() ensures |StatusClass("")| == 73 && StatusClass("")[54] == '6' {}

  /** Likewise for the badge classes: three distinct ones for the known
      statuses, and the default for every other. */
  lemma StatusClassesDistinct(a: string, b: string)
    ensures KnownStatus(a) && KnownStatus(b) ==> (StatusClass(a) == StatusClass(b) <==> a == b)
    ensures !KnownStatus(a) ==> StatusClass(a) == StatusClass("")
    ensures KnownStatus(a) && !KnownStatus(b) ==> StatusClass(a) != StatusClass(b)
  {
    InProgressClass();
    PendingClass();
    CompletedClass();
    DefaultClass();
  }
}
