/** The "Analyze Conversation" button handler of `main`
    (medical-nlp-streamlit.py, 207-330): submit the text, normalise the
    answer (waiting on the job for the asynchronous endpoint), apply the
    options and store the result in the session. The HTTP answers are
    inputs: `submission` is what the POST yields and `polls` what the
    successive job-status GETs yield. */
module Pipeline {
  import opened JsonValues
  import opened Normalizer
  import opened JobPoller

  /** How one press of the button ends. */
  datatype Outcome =
    | Stored(analysis: Analysis) // results written to the session
    | NoText                     // "Please provide conversation text"
    | RequestFailed              // RequestException, reported by the handler at 325
    | AsyncTimedOut              // "Async job did not complete in time", then `return`
    | Crashed(fault: Fault)      // an exception the handler does not catch

  /** The outcome, once normalisation gave `normalized`, that applying the
      options to it leads to. */
  predicate Concludes(normalized: Result<Analysis>, opts: Options, outcome: Outcome)
  {
    match normalized
    case Raised(f) => outcome == Crashed(f)
    case Ok(a) =>
      && (outcome.Stored? || outcome.Crashed?)
      && OptionsApplied(a, opts, if outcome.Stored? then Ok(outcome.analysis) else Raised(outcome.fault))
  }

  /** The part of `st.session_state` the handler writes. */
  class Session {
    var results: Option<Analysis>
    var processed: bool

    constructor ()
      ensures results == None && !processed
    {
      results := None;
      processed := false;
    }

    method AnalyzeConversation(endpoint: Endpoint, conversationText: string, opts: Options,
                               submission: Response, polls: seq<Response>)
      returns (outcome: Outcome, fetches: nat)
      requires |polls| >= MaxPolls
      modifies this
      // the session is written exactly when the analysis completes
      ensures outcome.Stored? ==> results == Some(outcome.analysis) && processed
      ensures !outcome.Stored? ==> results == old(results) && processed == old(processed)
      ensures outcome == NoText <==> conversationText == []
      ensures fetches <= MaxPolls
      ensures endpoint != AsyncAnalysis || conversationText == [] || submission.Transport? ==> fetches == 0
      ensures conversationText != [] && submission.Transport? ==> outcome == RequestFailed
      ensures conversationText != [] && submission.Body? && endpoint != AsyncAnalysis ==>
        Concludes(NormalizeResponse(endpoint, conversationText, submission.json), opts, outcome)
      ensures conversationText != [] && submission.Body? && endpoint == AsyncAnalysis ==>
        match Index(submission.json, "job_id")
        case Raised(f) => outcome == Crashed(f) && fetches == 0
        case Ok(_) =>
          && 1 <= fetches
          && (forall i :: 0 <= i < fetches - 1 ==> PollVerdict(polls[i]) == Pending)
          && match PollVerdict(polls[fetches - 1])
             case Pending => fetches == MaxPolls && outcome == AsyncTimedOut
             case PollFailed => outcome == RequestFailed
             case PollRaised(f) => outcome == Crashed(f)
             case Completed(result) =>
               Concludes(NormalizeResponse(AsyncAnalysis, conversationText, result), opts, outcome)
    {
      fetches := 0;
      if conversationText == [] {
        return NoText, 0;
      }
      if submission.Transport? {
        return RequestFailed, 0;
      }
      var raw := submission.json;
      if endpoint == AsyncAnalysis {
        var jobId := Index(raw, "job_id");
        if jobId.Raised? {
          return Crashed(jobId.fault), 0;
        }
        var polled;
        polled, fetches := PollJob(polls);
        match polled
        case Pending =>
          return AsyncTimedOut, fetches;
        case PollFailed =>
          return RequestFailed, fetches;
        case PollRaised(f) =>
          return Crashed(f), fetches;
        case Completed(result) =>
          raw := result;
      }
      var normalized := NormalizeResponse(endpoint, conversationText, raw);
      if normalized.Raised? {
        return Crashed(normalized.fault), fetches;
      }
      var applied := ApplyOptions(normalized.value, opts);
      if applied.Raised? {
        return Crashed(applied.fault), fetches;
      }
      results := Some(applied.value);
      processed := true;
      outcome := Stored(applied.value);
    }
  }
}
