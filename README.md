# Medical NLP Streamlit client — verified model of its client-side logic

`medical-nlp-streamlit.py` is a Streamlit front end. It sends a doctor–patient
conversation to one of five analysis endpoints of a medical NLP service and
shows what comes back. Most of the file is widgets and charts. Underneath them
is a small amount of sequential client logic, and this project models it in
Dafny and proves its properties:

- **Normaliser, toggles and confidence filter** (`main`, 254-320), in
  `normalizer.dfy`. Each endpoint's JSON answer is wrapped or passed through
  and turned into one five-field record: `entities`, `summary`,
  `sentiment_analysis`, `soap_note` and `quality_metrics`. Missing fields take
  their defaults. The four sidebar toggles then blank their fields, and
  entities below the confidence threshold are dropped.
- **Bounded wait for an asynchronous job** (281-294), in `job_poller.dfy`. This
  is at most ten status fetches, stopping at the first one whose status is
  "completed".
- **The "Analyze Conversation" handler** (207-330), in `pipeline.dfy`. It strings
  the two parts above together and writes `st.session_state.results` and
  `processed`, modelled as the fields of a `Session` class.
- **`highlight_entities_in_text`** (446-461), in `annotator.dfy`. Entities are
  sorted stably by `start`, descending. Each entity's text is then wrapped in a
  `<span>` by a first-occurrence `str.replace(old, new, 1)`, and the result is
  placed inside a fixed `<div>`.
- **`generate_performance_insights` and `generate_recommendations`**
  (760-819), in `insights.dfy`. These are threshold rules that append
  messages to a list.

`json_values.dfy` holds the JSON values the client handles and the Python
operations it applies to them:

- `d.get(k, default)` raises `AttributeError` on a non-dict.
- `d[k]` raises `KeyError` on a missing key and `TypeError` on a non-dict.
- Truthiness of containers and scalars.
- Numeric comparison, where `bool` counts as 0 or 1.

Exceptions that the handler's `except requests.exceptions.RequestException`
does not catch are a `Fault`. They end the run as `Outcome.Crashed`. A transport
failure, an HTTP error status or an undecodable body is a `Response.Transport`;
the handler catches it and reports `RequestFailed`.

The HTTP answers are inputs to the model. `submission` is what the POST
yields, and `polls[k]` is what the (k+1)-th `GET /api/v1/jobs/{job_id}` yields.

Some behaviours of the source are reproduced as written and proved about the
model:

- The entity-extraction, sentiment and SOAP variants synthesise
  `quality_metrics` without all four keys (260, 268, 276). The generators index
  all four keys (764-814), so on those variants they raise `KeyError`
  (`Insights.WrappedVariantsLackMetrics`). In the running app `display_metrics`
  reads the same keys first (692, 699), so the same `KeyError` is raised there
  before the generators are reached.
- `replace(text, span, 1)` replaces the first occurrence of the entity's text,
  not the occurrence at its `start`. When two entities share the same text, the
  later one wraps the first occurrence, and the earlier one then replaces the
  first occurrence in the new string, which is either the wrapped copy or a
  match that overlaps the opening tag (text "s" matches in `<span` and breaks
  the tag). The
  second occurrence is never highlighted (`Annotator.SharedTextCollision`).
- The empty pattern inserts the replacement at index 0
  (`Annotator.ReplaceFirstEmpty`).

Line 221 of the source lacks the closing quote of its f-string, so the file as
given does not parse. The model follows the evident meaning: the URL is
`/api/v1/entities/extract`. Nothing in the modelled logic depends on URLs.

## Model

| member | source | states |
|---|---|---|
| Normalizer.Normalize | medical-nlp-streamlit.py:296-307 | a non-dict response raises `AttributeError` from `.get`; otherwise every one of the five canonical keys is the response's own value when present and its default otherwise (`[]`, `{}`, or the four-key 0.8 metrics) |
| Normalizer.EntityExtractionVariant | medical-nlp-streamlit.py:254-261 | the entity-extraction record keeps only `raw.get("entities", [])`, empties summary, sentiment and SOAP, and carries the two-key 0.8 metrics; a non-dict raw response raises `AttributeError` |
| Normalizer.SentimentVariant | medical-nlp-streamlit.py:262-269 | the sentiment record holds exactly one item pairing the conversation text with the raw response, and its `overall_confidence` is the raw response's `confidence` or 0.8 when absent; the other fields are empty |
| Normalizer.SoapNoteVariant | medical-nlp-streamlit.py:270-277 | the SOAP variant cannot fail: the raw response becomes `soap_note` whatever its shape, with two-key 0.8 metrics and the other fields empty |
| Normalizer.PassThroughVariants | medical-nlp-streamlit.py:296-307 | the full and asynchronous variants are plain normalisation of the response; a response without `quality_metrics` gets the four-key 0.8 record |
| Normalizer.KeepConfident | medical-nlp-streamlit.py:318-320 | the filter succeeds exactly when every entity's `confidence` can be read and compared; otherwise it raises the fault of the first entity that cannot |
| Normalizer.KeepConfidentSelects | medical-nlp-streamlit.py:318-320 | a successful filter gives an order-preserving subsequence holding each entity with `confidence >= threshold` as often as the input holds it, and no other entity |
| Normalizer.KeepConfidentAllPass | medical-nlp-streamlit.py:318-320 | when every entity passes, the filter returns the list unchanged |
| Normalizer.ThresholdZeroKeepsAll | medical-nlp-streamlit.py:318-320 | with threshold 0 and non-negative confidences, nothing is dropped |
| Normalizer.ThresholdOneKeepsCertain | medical-nlp-streamlit.py:318-320 | with threshold 1 and confidences at most 1, exactly the entities with confidence 1 survive, in order |
| Normalizer.KeepConfidentIdempotent | medical-nlp-streamlit.py:318-320 | filtering an already filtered list at the same threshold changes nothing |
| Normalizer.ApplyOptions | medical-nlp-streamlit.py:309-320 | a disabled toggle forces its field to `[]` or `{}`; the filter runs only when entity extraction is on and the list is truthy, and only it can raise; `quality_metrics` is never touched |
| Normalizer.OptionsAppliedUnique | medical-nlp-streamlit.py:309-320 | the relation `ApplyOptions` is proved against determines its result uniquely, so the options give exactly one record or one fault |
| JobPoller.PollJob | medical-nlp-streamlit.py:281-294 | between 1 and 10 fetches; every fetch before the last was still pending; the outcome is the verdict on the last fetch (completed with `result`, failed request, or the fault raised by reading `status` or `result`); a pending outcome happens only after all 10 fetches |
| JobPoller.StopsAtFirstCompletion | medical-nlp-streamlit.py:281-291 | if response k is the first one that is not pending and it reports "completed", exactly k fetches are made and the job's `result` is returned |
| JobPoller.TimesOutWhenNeverCompleted | medical-nlp-streamlit.py:292-294 | if the first ten responses are all pending, exactly ten fetches are made and the wait times out |
| Pipeline.Session.AnalyzeConversation | medical-nlp-streamlit.py:208-329 | empty text is reported and nothing is sent; the session is written exactly when the analysis completes, and otherwise it is unchanged (timeout, request failure, uncaught fault); a request failure is reported; the poller runs only for the asynchronous endpoint after `job_id` is read; a stored record is the normalised response with the options applied |
| Annotator.FindFrom | medical-nlp-streamlit.py:455 | the search returns the leftmost occurrence of the pattern at or after the start position, or none if there is no occurrence there |
| Annotator.ReplaceFirstOccurrence | medical-nlp-streamlit.py:455 | `replace(old, new, 1)` splices the replacement in at the first occurrence and keeps everything else |
| Annotator.ReplaceFirstAbsent | medical-nlp-streamlit.py:455 | a pattern that does not occur leaves the string unchanged |
| Annotator.ReplaceFirstEmpty | medical-nlp-streamlit.py:455 | an empty pattern inserts the replacement at index 0 |
| Annotator.ReplaceAfterPrefix | medical-nlp-streamlit.py:455 | when the pattern's first character is absent from the prefix, the replacement lands right after the prefix |
| Annotator.ReplaceFirstKeepsTail | medical-nlp-streamlit.py:455 | replacing the first occurrence keeps whatever follows any later occurrence |
| Annotator.Lower | medical-nlp-streamlit.py:452 | `lower()` maps each character separately and keeps the length |
| Annotator.DashUnderscores | medical-nlp-streamlit.py:452 | `replace("_", "-")` turns each underscore into a dash and keeps every other character |
| Annotator.CssClass | medical-nlp-streamlit.py:452 | the label's class has the label's length, no ASCII capitals and no underscores, and is character by character the lowered label with `_` as `-` |
| Annotator.BodyPartClass | medical-nlp-streamlit.py:452-453 | the label `BODY_PART` gets the class `body-part` |
| Annotator.InsertKeepsDescending | medical-nlp-streamlit.py:448 | inserting into a list sorted by descending `start` keeps it sorted and adds one entry |
| Annotator.SortIsDescending | medical-nlp-streamlit.py:448 | the sorted entities are in descending `start` order |
| Annotator.SortIsPermutation | medical-nlp-streamlit.py:448 | sorting neither loses nor duplicates entities |
| Annotator.InsertIsPermutation | medical-nlp-streamlit.py:448 | inserting adds exactly the one new entity |
| Annotator.InsertWithStart | medical-nlp-streamlit.py:448 | inserting keeps the relative order of entities that share a `start` and places the new one first among them |
| Annotator.SortIsStable | medical-nlp-streamlit.py:448 | entities with equal `start` keep their input order |
| Annotator.HighlightEntitiesInText | medical-nlp-streamlit.py:446-461 | the output is the fixed `annotated-text` div prefix, then the text after each entity, in descending-`start` order, has replaced its first occurrence with its span, then `</div>`; with no entities, the inner text is the input |
| Annotator.AbsentEntitiesLeaveTextUnchanged | medical-nlp-streamlit.py:451-455 | entities whose texts do not occur leave the text unchanged |
| Annotator.AnnotateTwo | medical-nlp-streamlit.py:451-455 | two entities are applied one after the other, each on the string the previous one left |
| Annotator.SortTwo | medical-nlp-streamlit.py:448 | of two entities, the one with the larger `start` is processed first |
| Annotator.TwoWordsReplaced | medical-nlp-streamlit.py:451-455 | replacing the later word first and then the earlier one wraps each word in place when their first characters occur nowhere before them |
| Annotator.TwoDistinctWords | medical-nlp-streamlit.py:446-455 | when the earlier entity's first character does not occur before it and the later entity's first character does not occur anywhere before the later entity, each is wrapped in its own span where it stands |
| Annotator.FeverAndCough | medical-nlp-streamlit.py:446-455 | "Patient has fever and cough" with a SYMPTOM entity "fever" and a TREATMENT entity "cough" gets each word wrapped once, in place |
| Annotator.SecondOccurrenceSurvives | medical-nlp-streamlit.py:455 | wrapping the first of two equal words and then replacing the word again replaces the first occurrence in the new string and leaves the second occurrence untouched |
| Annotator.SharedTextCollision | medical-nlp-streamlit.py:446-455 | with two entities sharing the same text, the text's second occurrence in the output is left unhighlighted |
| Insights.ReadMetricsInOrder | medical-nlp-streamlit.py:764-787 | the four `metrics['…']` reads succeed exactly when each key is present and numeric; a failure is the fault of the first failing key in reading order; a success carries each key's value |
| Insights.GeneratePerformanceInsights | medical-nlp-streamlit.py:760-798 | the list equals the messages of the threshold rules that fire, in statement order; a missing or non-numeric metric raises the fault of the first such read |
| Insights.GenerateRecommendations | medical-nlp-streamlit.py:801-819 | the list equals the messages of the rules that fire, in statement order, followed by the fixed closing sentence; a missing or non-numeric metric raises that read's fault |
| Insights.InsightsByStatement | medical-nlp-streamlit.py:764-796 | the insight rules give the coverage `if/elif` entry, the summary entry, the SOAP entry and then the confidence `if/else` entry, in that order |
| Insights.InsightsEndWithConfidence | medical-nlp-streamlit.py:787-796 | there are 1 to 4 insights; the last is "success" when `overall_confidence > 0.8` and "info" otherwise, and no earlier insight is a confidence entry |
| Insights.InsightsFollowThresholds | medical-nlp-streamlit.py:764-785 | each of the excellent-coverage (> 0.8), low-coverage (< 0.5), comprehensive-summary (> 0.85) and incomplete-SOAP (< 0.7) insights is present exactly when its threshold holds |
| Insights.RecommendationsByStatement | medical-nlp-streamlit.py:805-817 | the recommendation rules give the four conditional sentences in statement order, then the fixed sentence |
| Insights.RecommendationsEndWithUpdates | medical-nlp-streamlit.py:817 | there are 1 to 5 recommendations and the last is "Regular model updates …", which appears nowhere earlier |
| Insights.RecommendationsFollowThresholds | medical-nlp-streamlit.py:805-815 | each conditional recommendation is present exactly when its threshold holds (coverage < 0.7, summary < 0.8, SOAP < 0.8, confidence < 0.75) |
| Insights.DefaultMetricsCommentary | medical-nlp-streamlit.py:301-306 | the default four-key 0.8 metrics read as 0.8 throughout and yield only the moderate-confidence insight and only the closing recommendation |
| Insights.WrappedVariantsLackMetrics | medical-nlp-streamlit.py:254-277 | metrics synthesised by the entity-extraction, sentiment and SOAP variants make the generators raise `KeyError`: on `summary_completeness` for entity extraction, and on `entity_coverage` for the other two |

## Left out

- The Streamlit interface is not modelled: widgets, tabs, CSS, `st.write`/`st.metric` output, Plotly and pandas charts and tables. It is presentation with no behaviour to prove.
- HTTP via `requests` is not modelled: `post`, `get`, `raise_for_status` and `.json()`. The responses they produce are inputs; a transport failure, an HTTP error status and an undecodable body are all `Response.Transport`.
- `time.sleep(2)`, the request timeouts and the `patient_id` built from `time.time()` are wall-clock effects and are not modelled. `job_id` appears only in the URL, so in the model it is read (and can raise) but does not influence the oracle responses.
- The WebSocket live-transcription path and its background thread are not modelled. They are concurrent mutation of session state.
- The average-confidence division and percentage formatting are not modelled. They are floating-point display formatting.
- `get_example_conversation` is a constant string and is not modelled. `display_metrics` and the other display functions are not modelled either; the metrics dict they pass to the generators is an input here.
- JobPoller.PollJob: requires at least ten oracle responses. This is the model's way of supplying every fetch the loop may make; the source itself demands nothing of its caller.
- Annotator.Lower: lower-cases ASCII letters only. Python's Unicode case mapping is not modelled; labels are upper-case ASCII identifiers.
- Annotator.HighlightEntitiesInText: takes typed entities (text, label, start). The `KeyError` or `TypeError` that a malformed entity dict would raise is not modelled.
- Numbers are `real`, not IEEE doubles. The rounding done when JSON is decoded is not modelled (a confidence sent as `0.69999999999999996` decodes to 0.7 and passes a 0.7 threshold in the source, but not in the model), nor are the `NaN` and `Infinity` values `json.loads` accepts.
