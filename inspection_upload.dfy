/** The thermal-image upload page: numbering the model's predictions as
    "Error k" / "Fault k", their colours and labels, and where an image is
    uploaded (InspectionUploadPage). */
module InspectionUpload {
  import opened Common
  import opened Detections

  /** The tag shown next to a prediction. */
  datatype Tag = Error(k: nat) | Fault(k: nat) | Normal

  /** One box drawn on the thermal image. rawClass is the raw class, shown as its label. */
  datatype Prediction = Prediction(
    x: Double, y: Double, width: Double, height: Double, confidence: Double,
    rawClass: Option<string>, tag: Tag)

  const PotentiallyFaulty: string := "f"
  const Faulty: string := "pf"

  /** How many predictions of s carry class c. */
  function CountClass(s: seq<RawDetection>, c: string): (n: nat)
    ensures n <= |s|
  {
    if s == [] then 0
    else CountClass(s[..|s| - 1], c) + (if s[|s| - 1].className == Some(c) then 1 else 0)
  }

  /** The tag of the last prediction of s: "f" is numbered among the "f"
      predictions so far, "pf" among the "pf" ones, anything else is Normal. */
  function LastTag(s: seq<RawDetection>): Tag
    requires s != []
  {
    var c := s[|s| - 1].className;
    if c == Some(PotentiallyFaulty) then Error(CountClass(s, PotentiallyFaulty))
    else if c == Some(Faulty) then Fault(CountClass(s, Faulty))
    else Normal
  }

  function PredictionOf(d: RawDetection, tag: Tag): Prediction {
    Prediction(d.x, d.y, d.width, d.height, d.confidence, d.className, tag)
  }

  /** The boxes for a flattened list of predictions: box i copies
      prediction i and carries the tag it earns among the first i + 1. */
  function Tagged(s: seq<RawDetection>): (r: seq<Prediction>)
    ensures |r| == |s|
  {
    seq(|s|, i requires 0 <= i < |s| => PredictionOf(s[i], LastTag(s[..i + 1])))
  }

  /** One more prediction adds one box at the end and leaves the earlier
      boxes, and their numbers, as they were. */
  lemma TaggedSnoc(s: seq<RawDetection>, d: RawDetection)
    ensures Tagged(s + [d]) == Tagged(s) + [PredictionOf(d, LastTag(s + [d]))]
  {
    forall i | 0 <= i < |s| ensures Tagged(s + [d])[i] == Tagged(s)[i] {
      assert (s + [d])[..i + 1] == s[..i + 1];
    }
    assert (s + [d])[..|s| + 1] == s + [d];
  }

  /** One loop step: the new box's tag follows from the two counters so far. */
  lemma TagStep(p: seq<RawDetection>, d: RawDetection)
    ensures CountClass(p + [d], PotentiallyFaulty)
         == CountClass(p, PotentiallyFaulty) + (if d.className == Some(PotentiallyFaulty) then 1 else 0)
    ensures CountClass(p + [d], Faulty) == CountClass(p, Faulty) + (if d.className == Some(Faulty) then 1 else 0)
    ensures Tagged(p + [d]) == Tagged(p) + [PredictionOf(d,
              if d.className == Some(PotentiallyFaulty) then Error(CountClass(p, PotentiallyFaulty) + 1)
              else if d.className == Some(Faulty) then Fault(CountClass(p, Faulty) + 1)
              else Normal)]
  {
    assert (p + [d])[..|p + [d]| - 1] == p;
    TaggedSnoc(p, d);
  }

  /** Counting over a longer prefix never gives less. */
  lemma {:induction false} CountClassMonotone(s: seq<RawDetection>, i: int, j: int, c: string)
    requires 0 <= i <= j <= |s|
    ensures CountClass(s[..i], c) <= CountClass(s[..j], c)
  {
    if i < j {
      assert s[..j][..j - 1] == s[..j - 1];
      CountClassMonotone(s, i, j - 1, c);
    }
  }

  /** No two boxes share an "Error" number, and none share a "Fault" number. */
  lemma TagsDistinct(s: seq<RawDetection>, i: int, j: int)
    requires 0 <= i < j < |s|
    ensures Tagged(s)[i].tag.Error? && Tagged(s)[j].tag.Error? ==> Tagged(s)[i].tag.k < Tagged(s)[j].tag.k
    ensures Tagged(s)[i].tag.Fault? && Tagged(s)[j].tag.Fault? ==> Tagged(s)[i].tag.k < Tagged(s)[j].tag.k
  {
    assert s[..j + 1][..j] == s[..j];
    CountClassMonotone(s, i + 1, j, PotentiallyFaulty);
    CountClassMonotone(s, i + 1, j, Faulty);
  }

  /** The numbers start at 1: the first "f" is Error 1. */
  lemma FirstErrorIsOne(s: seq<RawDetection>, i: int)
    requires 0 <= i < |s| && s[i].className == Some(PotentiallyFaulty)
    requires forall j :: 0 <= j < i ==> s[j].className != Some(PotentiallyFaulty)
    ensures Tagged(s)[i].tag == Error(1)
  {
    NoneCounted(s[..i], PotentiallyFaulty);
    assert s[..i + 1][..i] == s[..i];
  }

  lemma {:induction false} NoneCounted(s: seq<RawDetection>, c: string)
    requires forall j :: 0 <= j < |s| ==> s[j].className != Some(c)
    ensures CountClass(s, c) == 0
  {
    if s != [] {
      NoneCounted(s[..|s| - 1], c);
    }
  }

  /** TagStep at position j of a group that follows the predictions seen. */
  lemma GroupStep(seen: seq<RawDetection>, group: seq<RawDetection>, j: int)
    requires 0 <= j < |group|
    ensures var p, d := seen + group[..j], group[j];
      && CountClass(seen + group[..j + 1], PotentiallyFaulty)
         == CountClass(p, PotentiallyFaulty) + (if d.className == Some(PotentiallyFaulty) then 1 else 0)
      && CountClass(seen + group[..j + 1], Faulty) == CountClass(p, Faulty) + (if d.className == Some(Faulty) then 1 else 0)
      && Tagged(seen + group[..j + 1]) == Tagged(p) + [PredictionOf(d,
           if d.className == Some(PotentiallyFaulty) then Error(CountClass(p, PotentiallyFaulty) + 1)
           else if d.className == Some(Faulty) then Fault(CountClass(p, Faulty) + 1)
           else Normal)]
  {
    assert seen + group[..j + 1] == (seen + group[..j]) + [group[j]];
    TagStep(seen + group[..j], group[j]);
  }

  /** The inner forEach of fetchPredictions: tags one output's predictions,
      carrying on the running list and the two counters. */
  method TagGroup(group: seq<RawDetection>, ghost seen: seq<RawDetection>,
                  detections: seq<Prediction>, errorCount: nat, faultCount: nat)
    returns (detections': seq<Prediction>, errorCount': nat, faultCount': nat)
    requires detections == Tagged(seen)
    requires errorCount == CountClass(seen, PotentiallyFaulty) && faultCount == CountClass(seen, Faulty)
    ensures detections' == Tagged(seen + group)
    ensures errorCount' == CountClass(seen + group, PotentiallyFaulty)
    ensures faultCount' == CountClass(seen + group, Faulty)
  {
    detections', errorCount', faultCount' := detections, errorCount, faultCount;
    var j := 0;
    assert seen + group[..j] == seen;
    while j < |group|
      invariant 0 <= j <= |group|
      invariant detections' == Tagged(seen + group[..j])
      invariant errorCount' == CountClass(seen + group[..j], PotentiallyFaulty)
      invariant faultCount' == CountClass(seen + group[..j], Faulty)
    {
      var det := group[j];
      var tag := Normal;
      if det.className == Some(PotentiallyFaulty) {
        errorCount' := errorCount' + 1;
        tag := Error(errorCount');
      } else if det.className == Some(Faulty) {
        faultCount' := faultCount' + 1;
        tag := Fault(faultCount');
      }
      GroupStep(seen, group, j);
      detections' := detections' + [PredictionOf(det, tag)];
      j := j + 1;
    }
    assert group[..j] == group;
  }

  /** The flatten-and-tag loop of fetchPredictions over the response's
      outputs (a missing list counts as empty). */
  method TagPredictions(outputs: Option<seq<ModelOutput>>) returns (detections: seq<Prediction>)
    ensures detections == Tagged(Flatten(outputs.GetOr([])))
  {
    var outs := outputs.GetOr([]);
    detections := [];
    var errorCount, faultCount := 0, 0;
    var i := 0;
    while i < |outs|
      invariant 0 <= i <= |outs|
      invariant detections == Tagged(Flatten(outs[..i]))
      invariant errorCount == CountClass(Flatten(outs[..i]), PotentiallyFaulty)
      invariant faultCount == CountClass(Flatten(outs[..i]), Faulty)
    {
      detections, errorCount, faultCount := TagGroup(GroupOf(outs[i]), Flatten(outs[..i]), detections, errorCount, faultCount);
      FlattenAppend(outs[..i], outs[i]);
      assert outs[..i + 1] == outs[..i] + [outs[i]];
      i := i + 1;
    }
    assert outs[..i] == outs;
  }

  /** The colour of a box: red for "pf", orange for "f", green otherwise. */
  function BoxColor(rawClass: Option<string>): string {
    if rawClass == Some(Faulty) then "red" else if rawClass == Some(PotentiallyFaulty) then "orange" else "green"
  }

  /** The wording in the list of detected issues. */
  function IssueLabel(rawClass: Option<string>): string {
    if rawClass == Some(Faulty) then "Faulty" else if rawClass == Some(PotentiallyFaulty) then "Potentially Faulty" else "Normal"
  }

  /** Colour, wording and tag always tell the same story: an Error box is
      orange and "Potentially Faulty", a Fault box red and "Faulty", and
      every other box green and "Normal". */
  lemma {:induction false} ColorMatchesTag(s: seq<RawDetection>, i: int)
    requires 0 <= i < |s|
    ensures Tagged(s)[i].tag.Error? <==> BoxColor(Tagged(s)[i].rawClass) == "orange"
    ensures Tagged(s)[i].tag.Fault? <==> BoxColor(Tagged(s)[i].rawClass) == "red"
    ensures Tagged(s)[i].tag.Normal? <==> IssueLabel(Tagged(s)[i].rawClass) == "Normal"
    ensures Tagged(s)[i].tag.Error? <==> IssueLabel(Tagged(s)[i].rawClass) == "Potentially Faulty"
  {
    assert s[..i + 1][|s[..i + 1]| - 1] == s[i];
  }

  // ------------------------------------------------------------ uploads

  datatype ImageKind = Thermal | Baseline

  const ApiBase: string := "http://localhost:8080/api/v1"

  /** uploadImage's target: the inspection's image for a thermal image, the
      transformer's for a baseline; a baseline upload without a transformer
      number (null or empty) is refused before any request. */
  function UploadUrl(kind: ImageKind, inspectionNo: string, transformerNo: Option<string>): (r: Option<string>)
    ensures r.None? <==> kind == Baseline && (transformerNo.None? || transformerNo.value == "")
    ensures kind == Thermal ==> r == Some(ApiBase + "/inspections/" + inspectionNo + "/image")
    ensures kind == Baseline && r.Some? ==> r == Some(ApiBase + "/transformers/" + transformerNo.value + "/image")
  {
    match kind
    case Thermal => Some(ApiBase + "/inspections/" + inspectionNo + "/image")
    case Baseline =>
      if transformerNo.None? || transformerNo.value == "" then None
      else Some(ApiBase + "/transformers/" + transformerNo.value + "/image")
  }

  /** The page's prediction state. */
  class UploadPage {
    const inspectionNo: string
    var thermalPredictions: seq<Prediction>
    var isAnalyzing: bool

    constructor (inspectionNo: string)
      ensures this.inspectionNo == inspectionNo && thermalPredictions == [] && !isAnalyzing
    {
      this.inspectionNo := inspectionNo;
      thermalPredictions := [];
      isAnalyzing := false;
    }

    /** fetchPredictions with the analysis response given as a parameter
        (None when the request fails): without an inspection number nothing
        happens; a failed request clears the boxes; otherwise the tagged
        boxes replace them. */
    method FetchPredictions(response: Option<AnalysisResult>)
      modifies this
      ensures inspectionNo == "" ==> thermalPredictions == old(thermalPredictions) && isAnalyzing == old(isAnalyzing)
      ensures inspectionNo != "" && response.None? ==> thermalPredictions == [] && !isAnalyzing
      ensures inspectionNo != "" && response.Some? ==>
        thermalPredictions == Tagged(Flatten(response.value.outputs.GetOr([]))) && !isAnalyzing
    {
      if inspectionNo == "" {
        return;
      }
      isAnalyzing := true;
      if response.None? {
        thermalPredictions := [];
      } else {
        thermalPredictions := TagPredictions(response.value.outputs);
      }
      isAnalyzing := false;
    }
  }
}
