/** The rule-based commentary on the quality metrics
    (medical-nlp-streamlit.py, `generate_performance_insights`, 760-798, and
    `generate_recommendations`, 801-819). Each generator reads the four
    metrics with `metrics[key]`, compares them with fixed thresholds and
    appends a fixed message for every rule that fires. */
module Insights {
  import opened JsonValues
  import Normalizer

  /** The `type` of an insight, which picks the Streamlit box it is shown in. */
  datatype Tone = Success | Warning | Info

  /** One insight dict: `{"type": ..., "message": ...}`. */
  datatype Insight = Insight(tone: Tone, message: string)

  /** The four metrics, as the numbers the comparisons see. */
  datatype Metrics = Metrics(
    entityCoverage: real,
    summaryCompleteness: real,
    soapCompleteness: real,
    overallConfidence: real)

  /** The metric read under `MetricKeys[i]`. */
  function Value(m: Metrics, i: nat): real
    requires i < 4
  {
    if i == 0 then m.entityCoverage
    else if i == 1 then m.summaryCompleteness
    else if i == 2 then m.soapCompleteness
    else m.overallConfidence
  }

  /** The keys in the order both generators first read them. */
  const MetricKeys: seq<string> :=
    ["entity_coverage", "summary_completeness", "soap_completeness", "overall_confidence"]

  /** `metrics[key]` used in a comparison with a float: a missing key raises
      `KeyError`, a non-dict or a non-numeric value raises `TypeError`. */
  function Metric(metrics: Json, key: string): Result<real>
  {
    match Index(metrics, key)
    case Raised(f) => Raised(f)
    case Ok(v) =>
      match AsNumber(v)
      case None => Raised(TypeError)
      case Some(n) => Ok(n)
  }

  /** The four reads in order; the first that raises decides the outcome. */
  function ReadMetrics(metrics: Json): Result<Metrics>
  {
    var ec := Metric(metrics, "entity_coverage");
    var sc := Metric(metrics, "summary_completeness");
    var so := Metric(metrics, "soap_completeness");
    var oc := Metric(metrics, "overall_confidence");
    if ec.Raised? then Raised(ec.fault)
    else if sc.Raised? then Raised(sc.fault)
    else if so.Raised? then Raised(so.fault)
    else if oc.Raised? then Raised(oc.fault)
    else Ok(Metrics(ec.value, sc.value, so.value, oc.value))
  }

  /** Reading the metrics succeeds exactly when every read does, and then
      holds the four values read; on failure it raises what the first
      failing read, in source order, raises. */
  lemma ReadMetricsInOrder(metrics: Json)
    ensures ReadMetrics(metrics).Ok? <==> forall i :: 0 <= i < |MetricKeys| ==> Metric(metrics, MetricKeys[i]).Ok?
    ensures ReadMetrics(metrics).Raised? ==>
      exists i :: (0 <= i < |MetricKeys| && Metric(metrics, MetricKeys[i]) == Raised(ReadMetrics(metrics).fault)
        && forall k :: 0 <= k < i ==> Metric(metrics, MetricKeys[k]).Ok?)
    ensures ReadMetrics(metrics).Ok? ==>
      forall i :: 0 <= i < |MetricKeys| ==> Metric(metrics, MetricKeys[i]) == Ok(Value(ReadMetrics(metrics).value, i))
  {
    assert MetricKeys[0] == "entity_coverage" && MetricKeys[1] == "summary_completeness";
    assert MetricKeys[2] == "soap_completeness" && MetricKeys[3] == "overall_confidence";
  }

  /** A message paired with the condition under which a generator emits it. */
  datatype Rule<T> = Rule(fires: bool, item: T)

  /** The items of the rules that fire, in rule order. */
  function Fired<T>(rules: seq<Rule<T>>): seq<T>
  {
    if rules == [] then []
    else (if rules[0].fires then [rules[0].item] else []) + Fired(rules[1..])
  }

  /** What one rule contributes: its item when it fires. */
  function When<T>(rule: Rule<T>): seq<T>
  {
    if rule.fires then [rule.item] else []
  }

  /** Checking one more rule appends its item when it fires. */
  lemma {:induction false} FiredSnoc<T>(rules: seq<Rule<T>>, r: Rule<T>)
    ensures Fired(rules + [r]) == Fired(rules) + When(r)
  {
    if rules != [] {
      assert (rules + [r])[1..] == rules[1..] + [r];
      FiredSnoc(rules[1..], r);
    }
  }

  /** One more checked rule extends the output exactly when it fires. */
  lemma IfStep<T>(out: seq<T>, checked: seq<Rule<T>>, rule: Rule<T>)
    requires out == Fired(checked)
    ensures out + When(rule) == Fired(checked + [rule])
  {
    FiredSnoc(checked, rule);
  }

  /** An `if`/`elif` pair of rules whose conditions exclude each other
      appends the item of the one that fires, if either does. */
  lemma ElifStep<T>(out: seq<T>, checked: seq<Rule<T>>, first: Rule<T>, second: Rule<T>)
    requires out == Fired(checked)
    requires !(first.fires && second.fires)
    ensures (if first.fires then out + [first.item] else if second.fires then out + [second.item] else out)
            == Fired(checked + [first] + [second])
  {
    IfStep(out, checked, first);
    IfStep(out + When(first), checked + [first], second);
    if !first.fires {
      assert out + When(first) == out;
      if !second.fires {
        assert out + When(second) == out;
      }
    }
  }

  /** An `if`/`else` pair of rules appends the item of the branch taken. */
  lemma ElseStep<T>(out: seq<T>, checked: seq<Rule<T>>, cond: bool, taken: T, otherwise: T)
    requires out == Fired(checked)
    ensures (if cond then out + [taken] else out + [otherwise])
            == Fired(checked + [Rule(cond, taken)] + [Rule(!cond, otherwise)])
  {
    ElifStep(out, checked, Rule(cond, taken), Rule(!cond, otherwise));
  }

  // The insight dicts `generate_performance_insights` appends.
  const ExcellentCoverage: Insight :=
    Insight(Success, "Excellent entity extraction coverage - most medical entities were identified")
  const LowCoverage: Insight :=
    Insight(Warning, "Low entity coverage - consider reviewing the conversation for missed medical terms")
  const ComprehensiveSummary: Insight :=
    Insight(Success, "Comprehensive medical summary generated with all key components")
  const IncompleteSoap: Insight :=
    Insight(Warning, "SOAP note may be incomplete - some sections need more information")
  const HighConfidence: Insight :=
    Insight(Success, "High confidence in analysis results - suitable for clinical review")
  const ModerateConfidence: Insight :=
    Insight(Info, "Moderate confidence - human review recommended before clinical use")

  /** The insight rules as a table, in the order the source checks them. The
      coverage rules are an `if`/`elif` there; their conditions exclude each
      other, so two rules have the same effect. */
  function InsightRules(m: Metrics): seq<Rule<Insight>>
  {
    [] + [Rule(m.entityCoverage > 0.8, ExcellentCoverage)]
       + [Rule(m.entityCoverage < 0.5, LowCoverage)]
       + [Rule(m.summaryCompleteness > 0.85, ComprehensiveSummary)]
       + [Rule(m.soapCompleteness < 0.7, IncompleteSoap)]
       + [Rule(m.overallConfidence > 0.8, HighConfidence)]
       + [Rule(!(m.overallConfidence > 0.8), ModerateConfidence)]
  }

  // The sentences `generate_recommendations` appends.
  const ExtendDictionaries: string :=
    "Consider using additional medical dictionaries or fine-tuning the NER model"
  const CompleteHistory: string :=
    "Ensure the conversation includes all relevant medical history and current symptoms"
  const ObjectiveFindings: string :=
    "Include more objective findings and specific treatment plans in the conversation"
  const ProfessionalReview: string :=
    "Review and validate the extracted information with a healthcare professional"
  const RegularUpdates: string :=
    "Regular model updates with domain-specific medical data can improve accuracy"

  /** The recommendation rules as a table, in the order the source checks
      them; the last one always fires. */
  function RecommendationRules(m: Metrics): seq<Rule<string>>
  {
    [] + [Rule(m.entityCoverage < 0.7, ExtendDictionaries)]
       + [Rule(m.summaryCompleteness < 0.8, CompleteHistory)]
       + [Rule(m.soapCompleteness < 0.8, ObjectiveFindings)]
       + [Rule(m.overallConfidence < 0.75, ProfessionalReview)]
       + [Rule(true, RegularUpdates)]
  }

  /** `generate_performance_insights(metrics)`: the insights of the rules
      that fire, in rule order, or the exception the first bad read raises.
      There are one to four insights and the last is the single
      overall-confidence one. */
  method GeneratePerformanceInsights(metrics: Json) returns (r: Result<seq<Insight>>)
    ensures r.Raised? <==> ReadMetrics(metrics).Raised?
    ensures r.Raised? ==> r.fault == ReadMetrics(metrics).fault
    ensures r.Ok? ==> r.value == Fired(InsightRules(ReadMetrics(metrics).value))
  {
    var insights: seq<Insight> := [];
    ghost var checked: seq<Rule<Insight>> := [];
    var ec := Metric(metrics, "entity_coverage");
    if ec.Raised? {
      return Raised(ec.fault);
    }
    ElifStep(insights, checked, Rule(ec.value > 0.8, ExcellentCoverage), Rule(ec.value < 0.5, LowCoverage));
    if ec.value > 0.8 {
      insights := insights + [ExcellentCoverage];
    } else if ec.value < 0.5 {
      insights := insights + [LowCoverage];
    }
    checked := checked + [Rule(ec.value > 0.8, ExcellentCoverage)] + [Rule(ec.value < 0.5, LowCoverage)];
    var sc := Metric(metrics, "summary_completeness");
    if sc.Raised? {
      return Raised(sc.fault);
    }
    IfStep(insights, checked, Rule(sc.value > 0.85, ComprehensiveSummary));
    if sc.value > 0.85 {
      insights := insights + [ComprehensiveSummary];
    }
    checked := checked + [Rule(sc.value > 0.85, ComprehensiveSummary)];
    var so := Metric(metrics, "soap_completeness");
    if so.Raised? {
      return Raised(so.fault);
    }
    IfStep(insights, checked, Rule(so.value < 0.7, IncompleteSoap));
    if so.value < 0.7 {
      insights := insights + [IncompleteSoap];
    }
    checked := checked + [Rule(so.value < 0.7, IncompleteSoap)];
    var oc := Metric(metrics, "overall_confidence");
    if oc.Raised? {
      return Raised(oc.fault);
    }
    ElseStep(insights, checked, oc.value > 0.8, HighConfidence, ModerateConfidence);
    if oc.value > 0.8 {
      insights := insights + [HighConfidence];
    } else {
      insights := insights + [ModerateConfidence];
    }
    checked := checked + [Rule(oc.value > 0.8, HighConfidence)] + [Rule(!(oc.value > 0.8), ModerateConfidence)];
    assert checked == InsightRules(Metrics(ec.value, sc.value, so.value, oc.value));
    assert ReadMetrics(metrics) == Ok(Metrics(ec.value, sc.value, so.value, oc.value));
    r := Ok(insights);
  }

  /** `generate_recommendations(metrics)`: the sentences of the rules that
      fire, in rule order, or the exception the first bad read raises. There
      are one to five and the fixed model-update sentence comes last. */
  method GenerateRecommendations(metrics: Json) returns (r: Result<seq<string>>)
    ensures r.Raised? <==> ReadMetrics(metrics).Raised?
    ensures r.Raised? ==> r.fault == ReadMetrics(metrics).fault
    ensures r.Ok? ==> r.value == Fired(RecommendationRules(ReadMetrics(metrics).value))
  {
    var recommendations: seq<string> := [];
    ghost var checked: seq<Rule<string>> := [];
    var ec := Metric(metrics, "entity_coverage");
    if ec.Raised? {
      return Raised(ec.fault);
    }
    IfStep(recommendations, checked, Rule(ec.value < 0.7, ExtendDictionaries));
    if ec.value < 0.7 {
      recommendations := recommendations + [ExtendDictionaries];
    }
    checked := checked + [Rule(ec.value < 0.7, ExtendDictionaries)];
    var sc := Metric(metrics, "summary_completeness");
    if sc.Raised? {
      return Raised(sc.fault);
    }
    IfStep(recommendations, checked, Rule(sc.value < 0.8, CompleteHistory));
    if sc.value < 0.8 {
      recommendations := recommendations + [CompleteHistory];
    }
    checked := checked + [Rule(sc.value < 0.8, CompleteHistory)];
    var so := Metric(metrics, "soap_completeness");
    if so.Raised? {
      return Raised(so.fault);
    }
    IfStep(recommendations, checked, Rule(so.value < 0.8, ObjectiveFindings));
    if so.value < 0.8 {
      recommendations := recommendations + [ObjectiveFindings];
    }
    checked := checked + [Rule(so.value < 0.8, ObjectiveFindings)];
    var oc := Metric(metrics, "overall_confidence");
    if oc.Raised? {
      return Raised(oc.fault);
    }
    IfStep(recommendations, checked, Rule(oc.value < 0.75, ProfessionalReview));
    if oc.value < 0.75 {
      recommendations := recommendations + [ProfessionalReview];
    }
    checked := checked + [Rule(oc.value < 0.75, ProfessionalReview)];
    IfStep(recommendations, checked, Rule(true, RegularUpdates));
    recommendations := recommendations + [RegularUpdates];
    checked := checked + [Rule(true, RegularUpdates)];
    assert checked == RecommendationRules(Metrics(ec.value, sc.value, so.value, oc.value));
    assert ReadMetrics(metrics) == Ok(Metrics(ec.value, sc.value, so.value, oc.value));
    r := Ok(recommendations);
  }

  // ---------------------------------------------------------------------
  // What the rule tables promise

  /** The insights, grouped by the source's four `if` statements. */
  lemma {:induction false} InsightsByStatement(m: Metrics)
    ensures Fired(InsightRules(m)) ==
      (if m.entityCoverage > 0.8 then [ExcellentCoverage] else if m.entityCoverage < 0.5 then [LowCoverage] else [])
      + When(Rule(m.summaryCompleteness > 0.85, ComprehensiveSummary))
      + When(Rule(m.soapCompleteness < 0.7, IncompleteSoap))
      + [if m.overallConfidence > 0.8 then HighConfidence else ModerateConfidence]
  {
    var r0, r1 := Rule(m.entityCoverage > 0.8, ExcellentCoverage), Rule(m.entityCoverage < 0.5, LowCoverage);
    var r2 := Rule(m.summaryCompleteness > 0.85, ComprehensiveSummary);
    var r3 := Rule(m.soapCompleteness < 0.7, IncompleteSoap);
    ElifStep([], [], r0, r1);
    var out := if r0.fires then [ExcellentCoverage] else if r1.fires then [LowCoverage] else [];
    IfStep(out, [] + [r0] + [r1], r2);
    out := out + When(r2);
    IfStep(out, [] + [r0] + [r1] + [r2], r3);
    out := out + When(r3);
    ElseStep(out, [] + [r0] + [r1] + [r2] + [r3], m.overallConfidence > 0.8, HighConfidence, ModerateConfidence);
  }

  /** `generate_performance_insights` yields one to four insights and ends
      with exactly one overall-confidence insight: "success" above 0.8,
      "info" otherwise; no earlier insight is about confidence. */
  lemma InsightsEndWithConfidence(m: Metrics)
    ensures var ins := Fired(InsightRules(m));
      && 1 <= |ins| <= 4
      && ins[|ins| - 1] == (if m.overallConfidence > 0.8 then HighConfidence else ModerateConfidence)
      && (forall i :: 0 <= i < |ins| - 1 ==> ins[i] != HighConfidence && ins[i] != ModerateConfidence)
  {
    InsightsByStatement(m);
  }

  /** Each conditional insight appears exactly when its threshold is
      crossed: coverage "excellent" above 0.8 and "low" below 0.5 (so never
      both), the summary one above 0.85 and the SOAP one below 0.7. */
  lemma InsightsFollowThresholds(m: Metrics)
    ensures var ins := Fired(InsightRules(m));
      && (ExcellentCoverage in ins <==> m.entityCoverage > 0.8)
      && (LowCoverage in ins <==> m.entityCoverage < 0.5)
      && (ComprehensiveSummary in ins <==> m.summaryCompleteness > 0.85)
      && (IncompleteSoap in ins <==> m.soapCompleteness < 0.7)
  {
    InsightsByStatement(m);
  }

  /** The recommendations, one `if` statement at a time. */
  lemma {:induction false} RecommendationsByStatement(m: Metrics)
    ensures Fired(RecommendationRules(m)) ==
      When(Rule(m.entityCoverage < 0.7, ExtendDictionaries))
      + When(Rule(m.summaryCompleteness < 0.8, CompleteHistory))
      + When(Rule(m.soapCompleteness < 0.8, ObjectiveFindings))
      + When(Rule(m.overallConfidence < 0.75, ProfessionalReview))
      + [RegularUpdates]
  {
    var r0 := Rule(m.entityCoverage < 0.7, ExtendDictionaries);
    var r1 := Rule(m.summaryCompleteness < 0.8, CompleteHistory);
    var r2 := Rule(m.soapCompleteness < 0.8, ObjectiveFindings);
    var r3 := Rule(m.overallConfidence < 0.75, ProfessionalReview);
    IfStep([], [], r0);
    assert [] + When(r0) == When(r0);
    IfStep(When(r0), [] + [r0], r1);
    IfStep(When(r0) + When(r1), [] + [r0] + [r1], r2);
    IfStep(When(r0) + When(r1) + When(r2), [] + [r0] + [r1] + [r2], r3);
    IfStep(When(r0) + When(r1) + When(r2) + When(r3), [] + [r0] + [r1] + [r2] + [r3], Rule(true, RegularUpdates));
  }

  /** `generate_recommendations` yields one to five sentences and always
      ends with the model-update sentence, which appears nowhere else. */
  lemma RecommendationsEndWithUpdates(m: Metrics)
    ensures var recs := Fired(RecommendationRules(m));
      && 1 <= |recs| <= 5
      && recs[|recs| - 1] == RegularUpdates
      && (forall i :: 0 <= i < |recs| - 1 ==> recs[i] != RegularUpdates)
  {
    RecommendationsByStatement(m);
  }

  /** Each conditional recommendation appears exactly when its metric is
      below its threshold: coverage 0.7, summary 0.8, SOAP 0.8, overall
      confidence 0.75. */
  lemma RecommendationsFollowThresholds(m: Metrics)
    ensures var recs := Fired(RecommendationRules(m));
      && (ExtendDictionaries in recs <==> m.entityCoverage < 0.7)
      && (CompleteHistory in recs <==> m.summaryCompleteness < 0.8)
      && (ObjectiveFindings in recs <==> m.soapCompleteness < 0.8)
      && (ProfessionalReview in recs <==> m.overallConfidence < 0.75)
  {
    RecommendationsByStatement(m);
  }

  // ---------------------------------------------------------------------
  // The metrics the normaliser hands over

  /** The four-key default record reads as 0.8 everywhere, which crosses no
      threshold except "not above 0.8": one "info" insight and the single
      fixed recommendation. */
  lemma DefaultMetricsCommentary()
    ensures ReadMetrics(Normalizer.DefaultQualityMetrics) == Ok(Metrics(0.8, 0.8, 0.8, 0.8))
    ensures Fired(InsightRules(Metrics(0.8, 0.8, 0.8, 0.8))) == [ModerateConfidence]
    ensures Fired(RecommendationRules(Metrics(0.8, 0.8, 0.8, 0.8))) == [RegularUpdates]
  {
    InsightsByStatement(Metrics(0.8, 0.8, 0.8, 0.8));
    RecommendationsByStatement(Metrics(0.8, 0.8, 0.8, 0.8));
  }

  /** The metrics the entity-extraction, sentiment and SOAP branches build
      lack keys the generators subscript, so both generators raise
      `KeyError` on them: entity extraction lacks "summary_completeness", the
      other two lack "entity_coverage". */
  lemma WrappedVariantsLackMetrics(endpoint: Normalizer.Endpoint, conversationText: string, raw: Json)
    requires endpoint in {Normalizer.EntityExtraction, Normalizer.SentimentAnalysis, Normalizer.SoapNote}
    requires Normalizer.NormalizeResponse(endpoint, conversationText, raw).Ok?
    ensures ReadMetrics(Normalizer.NormalizeResponse(endpoint, conversationText, raw).value.qualityMetrics)
      == Raised(KeyError(if endpoint == Normalizer.EntityExtraction then "summary_completeness" else "entity_coverage"))
  {
    if endpoint == Normalizer.EntityExtraction {
      Normalizer.EntityExtractionVariant(conversationText, raw);
    } else if endpoint == Normalizer.SentimentAnalysis {
      Normalizer.SentimentVariant(conversationText, raw);
    } else {
      Normalizer.SoapNoteVariant(conversationText, raw);
    }
  }
}
