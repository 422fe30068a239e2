/**
 * The gateway's abstract-type resolver: which concrete GraphQL object type a
 * value returned for a union or interface field belongs to. Six response
 * families are either a job receipt or their own data payload, `Segment` is
 * told apart by its `_segmentType` discriminant, and any other abstract type
 * is a configuration defect that throws.
 */
module TypeResolver {
  import opened Wrappers
  import opened JsValues

  const JobProcessingResponse := "JobProcessingResponse"
  const DataSeriesSegment := "DataSeriesSegment"
  const LineEqSegment := "LineEqSegment"

  /** Each response family and the variant it resolves to when the value is not a job receipt. */
  const Families: seq<(string, string)> := [
    ("PopEvalTimeSeriesResponse", "PopEvalTimeSeries"),
    ("PdpEvalTimeSeriesResponse", "PdpEvalTimeSeries"),
    ("CollectionsEvalTimeSeriesResponse", "CollectionsEvalTimeSeries"),
    ("CapacityCollectionTimeseriesResponse", "CapacityCollectionTimeSeries"),
    ("ScenarioTimeSeriesResponse", "ScenarioTimeSeries"),
    ("AnalyticsResultResponse", "AnalyticsPayload")
  ]

  /** The abstract type handed to the resolver; only its name is read. */
  datatype AbstractType = AbstractType(name: string, description: Option<string>)

  /** `resp?.jobId || resp?.jobBatchUUID`: truthy exactly when one of the two ids is. */
  function IsJobProcessingResp(resp: JsValue): (r: JsValue)
    ensures Truthy(r) <==> Truthy(Prop(resp, "jobId")) || Truthy(Prop(resp, "jobBatchUUID"))
    ensures !resp.Obj? ==> !Truthy(r)
  {
    Or(Prop(resp, "jobId"), Prop(resp, "jobBatchUUID"))
  }

  /** One arm of the switch for a response family. */
  function FamilyArm(value: JsValue, dataVariant: string): string
  {
    if Truthy(IsJobProcessingResp(value)) then JobProcessingResponse else dataVariant
  }

  /**
   * `typeResolver(value, context, info, abstractType)`. `timeSeries` is the value
   * of `SegmentType.timeSeries`, an enum member defined outside this file.
   */
  function ResolveType<C, I>(value: JsValue, context: C, info: I, abstractType: AbstractType,
                             timeSeries: JsValue): (r: Result<string>)
    ensures r.Err? <==> abstractType.name !in KnownNames()
    ensures r.Err? ==> r.message == "Unhandled union or interface " + abstractType.name
  {
    match abstractType.name
    case "PopEvalTimeSeriesResponse" => Ok(FamilyArm(value, "PopEvalTimeSeries"))
    case "PdpEvalTimeSeriesResponse" => Ok(FamilyArm(value, "PdpEvalTimeSeries"))
    case "CollectionsEvalTimeSeriesResponse" => Ok(FamilyArm(value, "CollectionsEvalTimeSeries"))
    case "CapacityCollectionTimeseriesResponse" => Ok(FamilyArm(value, "CapacityCollectionTimeSeries"))
    case "ScenarioTimeSeriesResponse" => Ok(FamilyArm(value, "ScenarioTimeSeries"))
    case "AnalyticsResultResponse" => Ok(FamilyArm(value, "AnalyticsPayload"))
    case "Segment" =>
      Ok(if Prop(value, "_segmentType") == timeSeries then DataSeriesSegment else LineEqSegment)
    case _ => Err("Unhandled union or interface " + abstractType.name)
  }

  /** The abstract type names the resolver handles: the six families and `Segment`. */
  function KnownNames(): (names: set<string>)
    ensures |names| == 7
  {
    {"PopEvalTimeSeriesResponse", "PdpEvalTimeSeriesResponse", "CollectionsEvalTimeSeriesResponse",
     "CapacityCollectionTimeseriesResponse", "ScenarioTimeSeriesResponse", "AnalyticsResultResponse",
     "Segment"}
  }

  /** Every family sends a value with a truthy `jobId` or `jobBatchUUID` to the job receipt type. */
  lemma JobReceiptResolved<C, I>(value: JsValue, context: C, info: I, abstractType: AbstractType,
                                 timeSeries: JsValue, k: nat)
    requires k < |Families| && abstractType.name == Families[k].0
    requires Truthy(Prop(value, "jobId")) || Truthy(Prop(value, "jobBatchUUID"))
    ensures ResolveType(value, context, info, abstractType, timeSeries) == Ok(JobProcessingResponse)
  {
  }

  /** Without a truthy job id every family resolves to its own data variant. */
  lemma DataVariantResolved<C, I>(value: JsValue, context: C, info: I, abstractType: AbstractType,
                                  timeSeries: JsValue, k: nat)
    requires k < |Families| && abstractType.name == Families[k].0
    requires !Truthy(Prop(value, "jobId")) && !Truthy(Prop(value, "jobBatchUUID"))
    ensures ResolveType(value, context, info, abstractType, timeSeries) == Ok(Families[k].1)
  {
  }

  /** A segment is a data-series segment exactly when its discriminant is the time-series tag, and never an error. */
  lemma SegmentResolved<C, I>(value: JsValue, context: C, info: I, abstractType: AbstractType, timeSeries: JsValue)
    requires abstractType.name == "Segment"
    ensures var r := ResolveType(value, context, info, abstractType, timeSeries);
      r.Ok? && (r.value == DataSeriesSegment <==> Prop(value, "_segmentType") == timeSeries)
      && (r.value != DataSeriesSegment ==> r.value == LineEqSegment)
  {
  }

  /** A successful resolution names one of the eight concrete types, never a fallback. */
  lemma ResolvedTypesKnown<C, I>(value: JsValue, context: C, info: I, abstractType: AbstractType, timeSeries: JsValue)
    ensures var r := ResolveType(value, context, info, abstractType, timeSeries);
      r.Ok? ==> r.value == JobProcessingResponse || r.value == DataSeriesSegment || r.value == LineEqSegment
                || exists k :: 0 <= k < |Families| && r.value == Families[k].1
  {
    var r := ResolveType(value, context, info, abstractType, timeSeries);
    if r.Ok? && r.value != JobProcessingResponse && r.value != DataSeriesSegment && r.value != LineEqSegment {
      match abstractType.name
      case "PopEvalTimeSeriesResponse" => assert r.value == Families[0].1;
      case "PdpEvalTimeSeriesResponse" => assert r.value == Families[1].1;
      case "CollectionsEvalTimeSeriesResponse" => assert r.value == Families[2].1;
      case "CapacityCollectionTimeseriesResponse" => assert r.value == Families[3].1;
      case "ScenarioTimeSeriesResponse" => assert r.value == Families[4].1;
      case "AnalyticsResultResponse" => assert r.value == Families[5].1;
    }
  }

  /** Only the abstract type's name and the value matter: context, info and the rest of the type are ignored. */
  lemma OnlyNameAndValueMatter<C, I>(value: JsValue, c1: C, c2: C, i1: I, i2: I,
                                     t1: AbstractType, t2: AbstractType, timeSeries: JsValue)
    requires t1.name == t2.name
    ensures ResolveType(value, c1, i1, t1, timeSeries) == ResolveType(value, c2, i2, t2, timeSeries)
  {
  }

  /** The documented example: `{jobId: "abc"}` is a job receipt, `{points: []}` is the data variant. */
  lemma PopEvalExamples<C, I>(context: C, info: I, timeSeries: JsValue)
    ensures var t := AbstractType("PopEvalTimeSeriesResponse", None);
      ResolveType(Obj(map["jobId" := Str("abc")]), context, info, t, timeSeries) == Ok(JobProcessingResponse)
      && ResolveType(Obj(map["points" := Obj(map[])]), context, info, t, timeSeries) == Ok("PopEvalTimeSeries")
      && ResolveType(Obj(map["jobId" := Str("")]), context, info, t, timeSeries) == Ok("PopEvalTimeSeries")
  {
  }
}
