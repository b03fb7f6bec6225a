/** The transformer catalogue of the stand-alone management service: search
    filters over transformers and their inspections, and adding, updating and
    deleting transformers (manage-transformers TransformerService and
    TransformerInspectionService). */
module ManageTransformers {
  import opened Common

  datatype Transformer = Transformer(
    transformerNo: string,
    poleNo: Option<string>,
    region: Option<string>,
    kind: Option<string>,          // the `type` column
    contentType: Option<string>,
    baselineImage: Option<string>)

  datatype Date = Date(year: int, month: int, day: int)

  datatype TransformerInspection = TransformerInspection(
    inspectionNo: string,
    transformerNo: string,         // number of the owning transformer (never null)
    inspectionDate: Option<Date>,
    status: Option<string>)

  /** value.toLowerCase().contains(text.toLowerCase()) on a non-null value. */
  predicate MatchesText(value: Option<string>, text: string) {
    value.Some? && Contains(Lower(value.value), Lower(text))
  }

  lemma MatchesEmptyText(value: Option<string>)
    requires value.Some?
    ensures MatchesText(value, "")
  {
    ContainsEmpty(Lower(value.value));
  }

  /** A contains-filter over a field that may be null: calling toLowerCase on
      a null field throws, so the whole query fails when any row has one;
      otherwise the matching rows, in repository order. */
  function TextFilter<T(!new)>(rows: seq<T>, field: T -> Option<string>, text: string): (r: Result<seq<T>>)
    ensures r.Err? <==> exists x :: x in rows && field(x).None?
    ensures r.Err? ==> r.error == NullPointer
    ensures r.Ok? ==> forall x :: x in r.value <==> x in rows && MatchesText(field(x), text)
  {
    if exists k :: 0 <= k < |rows| && field(rows[k]).None? then Err(NullPointer)
    else Ok(Filter(rows, (x: T) => MatchesText(field(x), text)))
  }

  /** Every successful filter keeps repository order, and an empty search
      text keeps every row. */
  lemma {:induction false} TextFilterLaws<T(!new)>(rows: seq<T>, field: T -> Option<string>, text: string)
    ensures TextFilter(rows, field, text).Ok? ==> IsSubsequence(TextFilter(rows, field, text).value, rows)
    ensures TextFilter(rows, field, "").Ok? ==> TextFilter(rows, field, "").value == rows
  {
    FilterIsSubsequence(rows, (x: T) => MatchesText(field(x), text));
    if TextFilter(rows, field, "").Ok? {
      forall x | x in rows ensures MatchesText(field(x), "") {
        MatchesEmptyText(field(x));
      }
      FilterKeepsAll(rows, (x: T) => MatchesText(field(x), ""));
    }
  }

  /** The contains-filters fold the search text to lower case first. */
  lemma TextFilterIgnoresCase<T(!new)>(rows: seq<T>, field: T -> Option<string>, text: string)
    ensures TextFilter(rows, field, text) == TextFilter(rows, field, Lower(text))
  {
    LowerIdempotent(text);
    FilterCongruent(rows, (x: T) => MatchesText(field(x), text), (x: T) => MatchesText(field(x), Lower(text)));
  }

  /** getTransformersByName: the number is never null, so this one never fails. */
  function ByName(rows: seq<Transformer>, text: string): (r: seq<Transformer>)
    ensures forall t :: t in r <==> t in rows && Contains(Lower(t.transformerNo), Lower(text))
  {
    Filter(rows, (t: Transformer) => Contains(Lower(t.transformerNo), Lower(text)))
  }

  /** The name search keeps repository order, and an empty text finds every
      transformer. */
  lemma {:induction false} ByNameLaws(rows: seq<Transformer>, text: string)
    ensures IsSubsequence(ByName(rows, text), rows)
    ensures ByName(rows, "") == rows
  {
    FilterIsSubsequence(rows, (t: Transformer) => Contains(Lower(t.transformerNo), Lower(text)));
    forall t | t in rows ensures Contains(Lower(t.transformerNo), Lower("")) {
      ContainsEmpty(Lower(t.transformerNo));
    }
    FilterKeepsAll(rows, (t: Transformer) => Contains(Lower(t.transformerNo), Lower("")));
  }

  /** getTransformersByPole: exact, case-sensitive; a null pole never matches. */
  function ByPole(rows: seq<Transformer>, poleNo: string): (r: seq<Transformer>)
    ensures forall t :: t in r <==> t in rows && t.poleNo == Some(poleNo)
  {
    Filter(rows, (t: Transformer) => t.poleNo == Some(poleNo))
  }

  function ByRegion(rows: seq<Transformer>, text: string): Result<seq<Transformer>> {
    TextFilter(rows, (t: Transformer) => t.region, text)
  }

  function ByType(rows: seq<Transformer>, text: string): Result<seq<Transformer>> {
    TextFilter(rows, (t: Transformer) => t.kind, text)
  }

  function ByContentType(rows: seq<Transformer>, text: string): Result<seq<Transformer>> {
    TextFilter(rows, (t: Transformer) => t.contentType, text)
  }

  /** Case only matters through ASCII letters: searching "ABC" and "abc"
      gives the same result for every filter. */
  lemma {:induction false} SearchIgnoresCase(rows: seq<Transformer>, text: string)
    ensures ByRegion(rows, text) == ByRegion(rows, Lower(text))
    ensures ByName(rows, text) == ByName(rows, Lower(text))
  {
    LowerIdempotent(text);
    TextFilterIgnoresCase(rows, (t: Transformer) => t.region, text);
    FilterCongruent(rows, (t: Transformer) => Contains(Lower(t.transformerNo), Lower(text)),
                    (t: Transformer) => Contains(Lower(t.transformerNo), Lower(Lower(text))));
  }

  lemma LowerIdempotent(s: string)
    ensures Lower(Lower(s)) == Lower(s)
  {
    assert forall i :: 0 <= i < |s| ==> LowerChar(LowerChar(s[i])) == LowerChar(s[i]);
  }

  // ------------------------------------------------------------ inspections

  /** getInspectionByNumber. */
  function InspectionsByNumber(rows: seq<TransformerInspection>, text: string): (r: seq<TransformerInspection>)
    ensures forall i :: i in r <==> i in rows && Contains(Lower(i.inspectionNo), Lower(text))
  {
    Filter(rows, (i: TransformerInspection) => Contains(Lower(i.inspectionNo), Lower(text)))
  }

  /** getInspectionsByTransformer: substring of the owning transformer's number. */
  function InspectionsByTransformer(rows: seq<TransformerInspection>, text: string): (r: seq<TransformerInspection>)
    ensures forall i :: i in r <==> i in rows && Contains(Lower(i.transformerNo), Lower(text))
  {
    Filter(rows, (i: TransformerInspection) => Contains(Lower(i.transformerNo), Lower(text)))
  }

  /** getInspectionsByDate: exact date; a null date never matches. */
  function InspectionsByDate(rows: seq<TransformerInspection>, date: Option<Date>): (r: seq<TransformerInspection>)
    ensures forall i :: i in r <==> i in rows && i.inspectionDate.Some? && i.inspectionDate == date
  {
    Filter(rows, (i: TransformerInspection) => i.inspectionDate.Some? && i.inspectionDate == date)
  }

  /** getInspectionsByStatus: a null status never matches and never throws. */
  function InspectionsByStatus(rows: seq<TransformerInspection>, text: string): (r: seq<TransformerInspection>)
    ensures forall i :: i in r <==> i in rows && MatchesText(i.status, text)
  {
    Filter(rows, (i: TransformerInspection) => MatchesText(i.status, text))
  }

  /** Every inspection query returns an order-preserving part of the table. */
  lemma InspectionQueriesAreSubsequences(rows: seq<TransformerInspection>, text: string, date: Option<Date>)
    ensures IsSubsequence(InspectionsByNumber(rows, text), rows)
    ensures IsSubsequence(InspectionsByTransformer(rows, text), rows)
    ensures IsSubsequence(InspectionsByDate(rows, date), rows)
    ensures IsSubsequence(InspectionsByStatus(rows, text), rows)
  {
    FilterIsSubsequence(rows, (i: TransformerInspection) => Contains(Lower(i.inspectionNo), Lower(text)));
    FilterIsSubsequence(rows, (i: TransformerInspection) => Contains(Lower(i.transformerNo), Lower(text)));
    FilterIsSubsequence(rows, (i: TransformerInspection) => i.inspectionDate.Some? && i.inspectionDate == date);
    FilterIsSubsequence(rows, (i: TransformerInspection) => MatchesText(i.status, text));
  }

  // ------------------------------------------------------------ the service

  /** The row updateTransformer leaves: number, pole, region and baseline
      image copied; the type is written twice, the second time with the
      content type, so it ends up holding the content type; the content type
      itself is not updated. */
  function Updated(existing: Transformer, t: Transformer): (r: Transformer)
  {
    existing.(transformerNo := t.transformerNo, poleNo := t.poleNo, region := t.region,
              kind := t.contentType, baselineImage := t.baselineImage)
  }

  /** The type the caller sent is lost unless it equals the content type, and
      the stored content type never changes. */
  lemma UpdatedLosesType(existing: Transformer, t: Transformer)
    ensures Updated(existing, t).kind == t.contentType
    ensures Updated(existing, t).contentType == existing.contentType
    ensures Updated(existing, t).kind == t.kind <==> t.kind == t.contentType
  {
  }

  predicate HasNumber(rows: seq<Transformer>, no: string) {
    exists t :: t in rows && t.transformerNo == no
  }

  ghost predicate NumbersUnique(rows: seq<Transformer>) {
    forall j, k :: 0 <= j < k < |rows| ==> rows[j].transformerNo != rows[k].transformerNo
  }

  /** Replaces the row with the given number by f applied to it. */
  function ReplaceRow(rows: seq<Transformer>, no: string, f: Transformer -> Transformer): (r: seq<Transformer>)
    ensures |r| == |rows|
    ensures forall k :: 0 <= k < |rows| ==> r[k] == if rows[k].transformerNo == no then f(rows[k]) else rows[k]
  {
    seq(|rows|, k requires 0 <= k < |rows| => if rows[k].transformerNo == no then f(rows[k]) else rows[k])
  }

  class TransformerCatalogue {
    /** The transformer table in findAll order. */
    var transformers: seq<Transformer>

    ghost predicate Valid()
      reads this
    {
      NumbersUnique(transformers)
    }

    constructor ()
      ensures Valid() && transformers == []
    {
      transformers := [];
    }

    /** addTransformer: save inserts a new number at the end and overwrites
        the row of an existing one; the argument is returned. */
    method AddTransformer(t: Transformer) returns (r: Transformer)
      requires Valid()
      modifies this
      ensures Valid()
      ensures r == t
      ensures HasNumber(old(transformers), t.transformerNo) ==>
        transformers == ReplaceRow(old(transformers), t.transformerNo, _ => t)
      ensures !HasNumber(old(transformers), t.transformerNo) ==> transformers == old(transformers) + [t]
    {
      if HasNumber(transformers, t.transformerNo) {
        transformers := ReplaceRow(transformers, t.transformerNo, _ => t);
      } else {
        transformers := transformers + [t];
      }
      r := t;
    }

    /** updateTransformer: null and no change when no row has that number;
        otherwise the row becomes Updated(row, t). */
    method UpdateTransformer(t: Transformer) returns (r: Option<Transformer>)
      requires Valid()
      modifies this
      ensures Valid()
      ensures !HasNumber(old(transformers), t.transformerNo) ==> r.None? && transformers == old(transformers)
      ensures HasNumber(old(transformers), t.transformerNo) ==>
        && transformers == ReplaceRow(old(transformers), t.transformerNo, (e: Transformer) => Updated(e, t))
        && exists k :: 0 <= k < |old(transformers)| && old(transformers)[k].transformerNo == t.transformerNo
             && r == Some(Updated(old(transformers)[k], t)) && transformers[k] == r.value
    {
      if !HasNumber(transformers, t.transformerNo) {
        return None;
      }
      var k :| 0 <= k < |transformers| && transformers[k].transformerNo == t.transformerNo;
      transformers := ReplaceRow(transformers, t.transformerNo, (e: Transformer) => Updated(e, t));
      r := Some(transformers[k]);
    }

    /** deleteTransformer: every row with that number goes; deleting an
        unknown number changes nothing. */
    method DeleteTransformer(no: string)
      requires Valid()
      modifies this
      ensures Valid()
      ensures transformers == Filter(old(transformers), (t: Transformer) => t.transformerNo != no)
      ensures !HasNumber(transformers, no)
    {
      FilterPairwise(transformers, (t: Transformer) => t.transformerNo != no,
                     (a: Transformer, b: Transformer) => a.transformerNo != b.transformerNo);
      transformers := Filter(transformers, (t: Transformer) => t.transformerNo != no);
    }
  }
}
