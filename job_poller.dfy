/** The bounded wait for an asynchronous analysis job
    (medical-nlp-streamlit.py, 281-294): up to ten status fetches, two
    seconds apart, stopping at the first one that reports "completed". The
    server's answers are an oracle: `polls[k]` is what the (k+1)-th
    `GET /api/v1/jobs/{job_id}` yields. */
module JobPoller {
  import opened JsonValues

  /** The attempt budget of the `for _ in range(10)` loop. */
  const MaxPolls: nat := 10

  /** What one status fetch decides. `Pending` means the loop goes on; after
      the last attempt it is the time-out. */
  datatype PollOutcome =
    | Completed(result: Json)  // status "completed": `results = job_result["result"]`
    | Pending                  // any other status
    | PollFailed               // RequestException from the GET, `raise_for_status` or `.json()`
    | PollRaised(fault: Fault) // `job_result["status"]` or `job_result["result"]` raised

  /** The verdict of the loop body on one status response. */
  function PollVerdict(response: Response): PollOutcome
  {
    match response
    case Transport => PollFailed
    case Body(jobResult) =>
      match Index(jobResult, "status")
      case Raised(f) => PollRaised(f)
      case Ok(status) =>
        if status != JStr("completed") then Pending
        else
          match Index(jobResult, "result")
          case Raised(f) => PollRaised(f)
          case Ok(result) => Completed(result)
  }

  /** The poll loop. It makes at least one and at most `MaxPolls` fetches;
      every fetch before the last was pending; the outcome is the verdict on
      the last fetch; and it gives up pending only when the budget is spent. */
  method PollJob(polls: seq<Response>) returns (outcome: PollOutcome, fetches: nat)
    requires |polls| >= MaxPolls
    ensures 1 <= fetches <= MaxPolls
    ensures forall i :: 0 <= i < fetches - 1 ==> PollVerdict(polls[i]) == Pending
    ensures outcome == PollVerdict(polls[fetches - 1])
    ensures outcome == Pending ==> fetches == MaxPolls
  {
    fetches := 0;
    outcome := Pending;
    while fetches < MaxPolls
      invariant fetches <= MaxPolls
      invariant forall i :: 0 <= i < fetches ==> PollVerdict(polls[i]) == Pending
      invariant fetches > 0 ==> outcome == PollVerdict(polls[fetches - 1])
    {
      // time.sleep(2); requests.get(..., timeout=10)
      var response := polls[fetches];
      fetches := fetches + 1;
      if response.Transport? {
        outcome := PollFailed;
        return;
      }
      var status := Index(response.json, "status");
      if status.Raised? {
        outcome := PollRaised(status.fault);
        return;
      }
      if status.value == JStr("completed") {
        var result := Index(response.json, "result");
        outcome := if result.Raised? then PollRaised(result.fault) else Completed(result.value);
        return;
      }
      outcome := Pending;
    }
  }

  /** A job whose k-th status response is the first that is not pending,
      and reports completion, is fetched exactly k times and yields that
      response's result. */
  method StopsAtFirstCompletion(polls: seq<Response>, k: nat) returns (outcome: PollOutcome, fetches: nat)
    requires |polls| >= MaxPolls && 1 <= k <= MaxPolls
    requires forall i :: 0 <= i < k - 1 ==> PollVerdict(polls[i]) == Pending
    requires PollVerdict(polls[k - 1]).Completed?
    ensures fetches == k && outcome == PollVerdict(polls[k - 1])
  {
    outcome, fetches := PollJob(polls);
  }

  /** A job that is still pending at each of the first ten responses is
      fetched exactly ten times and the wait times out. */
  method TimesOutWhenNeverCompleted(polls: seq<Response>) returns (outcome: PollOutcome, fetches: nat)
    requires |polls| >= MaxPolls
    requires forall i :: 0 <= i < MaxPolls ==> PollVerdict(polls[i]) == Pending
    ensures outcome == Pending && fetches == MaxPolls
  {
    outcome, fetches := PollJob(polls);
  }
}
