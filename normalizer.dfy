/** The client's reconciliation of five endpoint responses into one
    canonical analysis record (medical-nlp-streamlit.py, `main`, 254-320):
    the per-endpoint wrapping, the defaulting of missing fields, the four
    feature toggles and the confidence-threshold filter on entities. */
module Normalizer {
  import opened JsonValues

  /** The endpoint chosen in the sidebar. */
  datatype Endpoint =
    | FullAnalysis       // POST /api/v1/analyze
    | EntityExtraction   // POST /api/v1/entities/extract
    | SentimentAnalysis  // POST /api/v1/sentiment/analyze
    | SoapNote           // POST /api/v1/soap/generate
    | AsyncAnalysis      // POST /api/v1/analyze/async, then GET /api/v1/jobs/{job_id}

  /** The canonical record `normalized_results`. Being a record, it has all
      five keys whatever endpoint produced it; each value is whatever JSON the
      response held under that key. */
  datatype Analysis = Analysis(
    entities: Json,
    summary: Json,
    sentimentAnalysis: Json,
    soapNote: Json,
    qualityMetrics: Json)

  /** The sidebar's processing options. */
  datatype Options = Options(
    extractEntities: bool,
    generateSummary: bool,
    analyzeSentiment: bool,
    generateSoap: bool,
    confidenceThreshold: real)

  const CanonicalKeys: set<string> :=
    {"entities", "summary", "sentiment_analysis", "soap_note", "quality_metrics"}

  /** The metrics assumed when a response carries none. */
  const DefaultQualityMetrics: Json := JObj(map[
    "entity_coverage" := JNum(0.8),
    "summary_completeness" := JNum(0.8),
    "soap_completeness" := JNum(0.8),
    "overall_confidence" := JNum(0.8)])

  /** The value a canonical key takes when the response lacks it. */
  function DefaultFor(key: string): Json
  {
    if key == "entities" || key == "sentiment_analysis" then EmptyList
    else if key == "quality_metrics" then DefaultQualityMetrics
    else EmptyDict
  }

  /** The record viewed as the dict the source builds: the value under `key`. */
  function Field(a: Analysis, key: string): Json
    requires key in CanonicalKeys
  {
    if key == "entities" then a.entities
    else if key == "summary" then a.summary
    else if key == "sentiment_analysis" then a.sentimentAnalysis
    else if key == "soap_note" then a.soapNote
    else a.qualityMetrics
  }

  /** The dict bound to `results` once the endpoint-specific branch has run.
      For the asynchronous endpoint `body` is the completed job's `result`. */
  function ResultsFor(endpoint: Endpoint, conversationText: string, body: Json): Result<Json>
  {
    match endpoint
    case EntityExtraction =>
      (match Get(body, "entities", EmptyList)
       case Raised(f) => Raised(f)
       case Ok(entities) => Ok(JObj(map[
         "entities" := entities,
         "summary" := EmptyDict,
         "sentiment_analysis" := EmptyList,
         "soap_note" := EmptyDict,
         "quality_metrics" := JObj(map["entity_coverage" := JNum(0.8), "overall_confidence" := JNum(0.8)])])))
    case SentimentAnalysis =>
      // the dict literal is evaluated before `results` is rebound, so the
      // confidence comes from the raw response
      (match Get(body, "confidence", JNum(0.8))
       case Raised(f) => Raised(f)
       case Ok(confidence) => Ok(JObj(map[
         "entities" := EmptyList,
         "summary" := EmptyDict,
         "sentiment_analysis" := JArr([JObj(map["text" := JStr(conversationText), "sentiment" := body])]),
         "soap_note" := EmptyDict,
         "quality_metrics" := JObj(map["overall_confidence" := confidence])])))
    case SoapNote =>
      Ok(JObj(map[
        "entities" := EmptyList,
        "summary" := EmptyDict,
        "sentiment_analysis" := EmptyList,
        "soap_note" := body,
        "quality_metrics" := JObj(map["soap_completeness" := JNum(0.8), "overall_confidence" := JNum(0.8)])]))
    case FullAnalysis => Ok(body)
    case AsyncAnalysis => Ok(body)
  }

  /** Building `normalized_results` from `results` with `.get` and defaults. */
  function Normalize(results: Json): (r: Result<Analysis>)
    ensures !results.JObj? ==> r == Raised(AttributeError)
    ensures results.JObj? ==> r.Ok? && forall key :: key in CanonicalKeys ==>
      Field(r.value, key) == if key in results.fields then results.fields[key] else DefaultFor(key)
  {
    if !results.JObj? then Raised(AttributeError)
    else
      var fields := results.fields;
      Ok(Analysis(
        FieldOr(fields, "entities", EmptyList),
        FieldOr(fields, "summary", EmptyDict),
        FieldOr(fields, "sentiment_analysis", EmptyList),
        FieldOr(fields, "soap_note", EmptyDict),
        FieldOr(fields, "quality_metrics", DefaultQualityMetrics)))
  }

  /** The whole normaliser: endpoint branch, then `.get` with defaults. */
  function NormalizeResponse(endpoint: Endpoint, conversationText: string, body: Json): Result<Analysis>
  {
    match ResultsFor(endpoint, conversationText, body)
    case Raised(f) => Raised(f)
    case Ok(results) => Normalize(results)
  }

  lemma EntityExtractionVariant(conversationText: string, raw: Json)
    ensures !raw.JObj? ==> NormalizeResponse(EntityExtraction, conversationText, raw) == Raised(AttributeError)
    ensures raw.JObj? ==> NormalizeResponse(EntityExtraction, conversationText, raw) == Ok(Analysis(
      FieldOr(raw.fields, "entities", EmptyList), EmptyDict, EmptyList, EmptyDict,
      JObj(map["entity_coverage" := JNum(0.8), "overall_confidence" := JNum(0.8)])))
  {
  }

  lemma SentimentVariant(conversationText: string, raw: Json)
    ensures !raw.JObj? ==> NormalizeResponse(SentimentAnalysis, conversationText, raw) == Raised(AttributeError)
    ensures raw.JObj? ==> NormalizeResponse(SentimentAnalysis, conversationText, raw) == Ok(Analysis(
      EmptyList, EmptyDict,
      JArr([JObj(map["text" := JStr(conversationText), "sentiment" := raw])]),
      EmptyDict,
      JObj(map["overall_confidence" := FieldOr(raw.fields, "confidence", JNum(0.8))])))
  {
  }

  /** The SOAP branch never looks inside the response: it cannot fail, and
      whatever JSON came back becomes the note. */
  lemma SoapNoteVariant(conversationText: string, raw: Json)
    ensures NormalizeResponse(SoapNote, conversationText, raw) == Ok(Analysis(
      EmptyList, EmptyDict, EmptyList, raw,
      JObj(map["soap_completeness" := JNum(0.8), "overall_confidence" := JNum(0.8)])))
  {
  }

  /** The full and asynchronous variants trust the response's own shape:
      present keys pass through, missing ones default. */
  lemma PassThroughVariants(endpoint: Endpoint, conversationText: string, raw: Json)
    requires endpoint == FullAnalysis || endpoint == AsyncAnalysis
    ensures NormalizeResponse(endpoint, conversationText, raw) == Normalize(raw)
    ensures raw.JObj? && "quality_metrics" !in raw.fields ==>
      NormalizeResponse(endpoint, conversationText, raw).value.qualityMetrics == DefaultQualityMetrics
  {
  }

  // ---------------------------------------------------------------------
  // Confidence filter: [e for e in entities if e["confidence"] >= threshold]

  /** `e["confidence"]` read for a comparison with the float threshold. */
  function ConfidenceOf(e: Json): Result<real>
  {
    match Index(e, "confidence")
    case Raised(f) => Raised(f)
    case Ok(c) =>
      match AsNumber(c)
      case None => Raised(TypeError)
      case Some(n) => Ok(n)
  }

  predicate Keeps(e: Json, threshold: real)
  {
    ConfidenceOf(e).Ok? && ConfidenceOf(e).value >= threshold
  }

  /** `a` is `b` with some elements left out, the rest in their order. */
  predicate IsSubsequence(a: seq<Json>, b: seq<Json>)
    decreases |b|
  {
    a == [] || (b != [] && ((a[0] == b[0] && IsSubsequence(a[1..], b[1..])) || IsSubsequence(a, b[1..])))
  }

  /** The list comprehension over a list of entities. It raises exactly
      when some entity's confidence cannot be read or compared, and then
      with what the first such entity raises. */
  function KeepConfident(items: seq<Json>, threshold: real): (r: Result<seq<Json>>)
    ensures r.Ok? <==> forall i :: 0 <= i < |items| ==> ConfidenceOf(items[i]).Ok?
    ensures r.Raised? ==> exists i :: (0 <= i < |items| && ConfidenceOf(items[i]) == Raised(r.fault) &&
                                       forall j :: 0 <= j < i ==> ConfidenceOf(items[j]).Ok?)
  {
    if items == [] then Ok([])
    else
      match ConfidenceOf(items[0])
      case Raised(f) => Raised(f)
      case Ok(c) =>
        var rest := KeepConfident(items[1..], threshold);
        if rest.Raised? then
          ghost var i :| 0 <= i < |items[1..]| && ConfidenceOf(items[1..][i]) == Raised(rest.fault) &&
            forall j :: 0 <= j < i ==> ConfidenceOf(items[1..][j]).Ok?;
          assert ConfidenceOf(items[i + 1]) == Raised(rest.fault);
          Raised(rest.fault)
        else if c >= threshold then Ok([items[0]] + rest.value)
        else Ok(rest.value)
  }

  /** When it succeeds, the comprehension keeps, in their order, exactly the
      entities at or above the threshold, each as often as it occurs. */
  lemma {:induction false} KeepConfidentSelects(items: seq<Json>, threshold: real)
    requires KeepConfident(items, threshold).Ok?
    ensures IsSubsequence(KeepConfident(items, threshold).value, items)
    ensures forall e :: (multiset(KeepConfident(items, threshold).value)[e] ==
                         if Keeps(e, threshold) then multiset(items)[e] else 0)
  {
    if items != [] {
      KeepConfidentSelects(items[1..], threshold);
      assert items == [items[0]] + items[1..];
    }
  }

  /** The comprehension applied to whatever JSON `entities` holds: a list is
      filtered; iterating a non-empty dict or string yields strings, which
      cannot be subscripted by "confidence"; other values are not iterable. */
  function ConfidenceFilter(entities: Json, threshold: real): Result<Json>
  {
    match entities
    case JArr(items) =>
      (match KeepConfident(items, threshold)
       case Raised(f) => Raised(f)
       case Ok(kept) => Ok(JArr(kept)))
    case JObj(fields) => if fields == map[] then Ok(EmptyList) else Raised(TypeError)
    case JStr(s) => if s == [] then Ok(EmptyList) else Raised(TypeError)
    case _ => Raised(TypeError)
  }

  /** When every entity clears the threshold, the filter changes nothing. */
  lemma {:induction false} KeepConfidentAllPass(items: seq<Json>, threshold: real)
    requires forall i :: 0 <= i < |items| ==> Keeps(items[i], threshold)
    ensures KeepConfident(items, threshold) == Ok(items)
  {
    if items != [] {
      KeepConfidentAllPass(items[1..], threshold);
      assert [items[0]] + items[1..] == items;
    }
  }

  /** Threshold 0.0 retains every entity whose confidence is non-negative. */
  lemma ThresholdZeroKeepsAll(items: seq<Json>)
    requires forall i :: 0 <= i < |items| ==> ConfidenceOf(items[i]).Ok? && ConfidenceOf(items[i]).value >= 0.0
    ensures KeepConfident(items, 0.0) == Ok(items)
  {
    KeepConfidentAllPass(items, 0.0);
  }

  /** With confidences in [0, 1], threshold 1.0 retains exactly the entities
      whose confidence is 1.0, in order. */
  lemma ThresholdOneKeepsCertain(items: seq<Json>)
    requires forall i :: 0 <= i < |items| ==> ConfidenceOf(items[i]).Ok? && ConfidenceOf(items[i]).value <= 1.0
    ensures KeepConfident(items, 1.0).Ok?
    ensures IsSubsequence(KeepConfident(items, 1.0).value, items)
    ensures forall e :: (multiset(KeepConfident(items, 1.0).value)[e] ==
                         if ConfidenceOf(e) == Ok(1.0) then multiset(items)[e] else 0)
  {
    var r := KeepConfident(items, 1.0);
    KeepConfidentSelects(items, 1.0);
    forall e ensures multiset(r.value)[e] == if ConfidenceOf(e) == Ok(1.0) then multiset(items)[e] else 0 {
      if e in items {
        var i :| 0 <= i < |items| && items[i] == e;
        assert Keeps(e, 1.0) <==> ConfidenceOf(e) == Ok(1.0);
      } else {
        assert multiset(items)[e] == 0;
      }
    }
  }

  /** Filtering an already filtered list changes nothing. */
  lemma {:induction false} KeepConfidentIdempotent(items: seq<Json>, threshold: real)
    requires KeepConfident(items, threshold).Ok?
    ensures KeepConfident(KeepConfident(items, threshold).value, threshold) == KeepConfident(items, threshold)
  {
    if items != [] {
      KeepConfidentIdempotent(items[1..], threshold);
    }
  }

  // ---------------------------------------------------------------------
  // Toggles and filter, applied to `normalized_results` after normalisation

  /** What `ApplyOptions` makes of the normalised record `a`. */
  predicate OptionsApplied(a: Analysis, opts: Options, r: Result<Analysis>)
  {
    var filtered := opts.extractEntities && Truthy(a.entities);
    var kept := ConfidenceFilter(a.entities, opts.confidenceThreshold);
    // only the entity filter can raise, and only when it runs
    && (r.Raised? <==> filtered && kept.Raised?)
    && (r.Raised? ==> r.fault == kept.fault)
    && (r.Ok? ==>
      // a disabled toggle forces its field to the empty container
      && r.value.entities == (if !opts.extractEntities then EmptyList else if filtered then kept.value else a.entities)
      && r.value.summary == (if opts.generateSummary then a.summary else EmptyDict)
      && r.value.sentimentAnalysis == (if opts.analyzeSentiment then a.sentimentAnalysis else EmptyList)
      && r.value.soapNote == (if opts.generateSoap then a.soapNote else EmptyDict)
      // the metrics are never touched
      && r.value.qualityMetrics == a.qualityMetrics)
  }

  /** The in-place edits of `normalized_results`, one field at a time. */
  method ApplyOptions(a: Analysis, opts: Options) returns (r: Result<Analysis>)
    ensures OptionsApplied(a, opts, r)
  {
    var normalized := a;
    if !opts.extractEntities {
      normalized := normalized.(entities := EmptyList);
    }
    if !opts.generateSummary {
      normalized := normalized.(summary := EmptyDict);
    }
    if !opts.analyzeSentiment {
      normalized := normalized.(sentimentAnalysis := EmptyList);
    }
    if !opts.generateSoap {
      normalized := normalized.(soapNote := EmptyDict);
    }
    if opts.extractEntities && Truthy(normalized.entities) {
      var kept := ConfidenceFilter(normalized.entities, opts.confidenceThreshold);
      if kept.Raised? {
        return Raised(kept.fault);
      }
      normalized := normalized.(entities := kept.value);
    }
    r := Ok(normalized);
  }

  /** `OptionsApplied` pins the outcome down: there is one way to apply the options. */
  lemma OptionsAppliedUnique(a: Analysis, opts: Options, r1: Result<Analysis>, r2: Result<Analysis>)
    requires OptionsApplied(a, opts, r1) && OptionsApplied(a, opts, r2)
    ensures r1 == r2
  {
  }
}
