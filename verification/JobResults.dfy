/** One job's result: retries in the worker, the stored document, the view served. */
module JobResults {
  import opened Wrappers

  /** Result document a worker writes; `data` and `error` are absent or present. */
  datatype JobResult = JobResult(status: nat, data: Option<string>, error: Option<string>)

  /** How one capture attempt ended. */
  datatype Captured = Good(data: string) | Unencodable(why: string) | Failed(status: nat, message: string)

  predicate IsRetryable(status: nat) { status in {408, 502, 503, 504} }

  predicate Transient(c: Captured) { c.Failed? && IsRetryable(c.status) }

  predicate Retries(c: Captured, attempt: nat, maxRetries: nat) { Transient(c) && attempt < maxRetries }

  function Shape(c: Captured): JobResult {
    match c
    case Good(v) => JobResult(200, Some(v), None)
    case Unencodable(e) => JobResult(500, None, Some("serialize result: " + e))
    case Failed(status, message) => JobResult(status, None, Some(message))
  }

  /** The first attempt that is not transient decides, or the last one allowed. */
  ghost predicate Decides(outcomes: nat -> Captured, maxRetries: nat, k: nat) {
    && k <= maxRetries
    && (forall j: nat | j < k :: Transient(outcomes(j)))
    && (k == maxRetries || !Transient(outcomes(k)))
  }

  method CaptureToResult(outcomes: nat -> Captured, maxRetries: nat) returns (r: JobResult, attempt: nat)
    ensures Decides(outcomes, maxRetries, attempt)
    ensures r == Shape(outcomes(attempt))
    ensures forall j: nat | j < attempt :: outcomes(j).Failed? && outcomes(j).status in {408, 502, 503, 504}
    ensures attempt < maxRetries ==> !(outcomes(attempt).Failed? && outcomes(attempt).status in {408, 502, 503, 504})
  {
    attempt := 0;
    while true
      invariant attempt <= maxRetries
      invariant forall j: nat | j < attempt :: Transient(outcomes(j))
      decreases maxRetries - attempt
    {
      match outcomes(attempt)
      case Good(v) =>
        return JobResult(200, Some(v), None), attempt;
      case Unencodable(e) =>
        return JobResult(500, None, Some("serialize result: " + e)), attempt;
      case Failed(status, message) =>
        if IsRetryable(status) && attempt < maxRetries {
          attempt := attempt + 1;
          continue;
        }
        return JobResult(status, None, Some(message)), attempt;
    }
  }

  // ---------------------------------------------------------------- the view served by GET

  datatype JobStatus = Queued | Running | Done | Error

  /** The document read back from a result key. */
  datatype Stored = Stored(phase: Option<string>, status: Option<nat>, data: Option<string>, error: Option<string>)

  datatype JobView = JobView(status: JobStatus, httpStatus: Option<nat>, data: Option<string>, error: Option<string>)

  function IntoJobView(d: Stored): JobView {
    var (status, http) :=
      if d.status.Some? && d.data.Some? && d.status.value < 400 then (Done, d.status)
      else if d.status.Some? && d.error.Some? then (Error, d.status)
      else if d.status.Some? && d.status.value >= 400 then (Error, d.status)
      else if d.status.Some? then (Done, d.status)
      else if d.error.Some? then (Error, Some(500))
      else if d.data.Some? then (Done, Some(200))
      else if d.phase == Some("running") then (Running, None)
      else (Queued, None);
    JobView(status, http, d.data, d.error)
  }

  predicate Terminal(d: Stored) { d.status.Some? || d.data.Some? || d.error.Some? }

  /** A `queued` or `running` marker never masks a result, and never passes for one. */
  lemma TerminalWins(d: Stored, phase: Option<string>)
    ensures IntoJobView(d).status in {Done, Error} <==> Terminal(d)
    ensures Terminal(d) <==> IntoJobView(d).httpStatus.Some?
    ensures Terminal(d) ==> IntoJobView(d.(phase := phase)) == IntoJobView(d)
    ensures !Terminal(d) ==> (IntoJobView(d).status == Running <==> d.phase == Some("running"))
    ensures IntoJobView(d).status == Error <==>
            || (d.status.Some? && d.status.value >= 400)
            || (d.error.Some? && !(d.status.Some? && d.data.Some? && d.status.value < 400))
    ensures d.status.Some? ==> IntoJobView(d).httpStatus == d.status
    ensures d.status.None? && Terminal(d) ==> IntoJobView(d).httpStatus == Some(if d.error.Some? then 500 else 200)
    ensures (IntoJobView(d).data, IntoJobView(d).error) == (d.data, d.error)
  {
    var v := IntoJobView(d);
    if d.status.Some? {
      assert v.httpStatus == d.status;
    } else {
      assert v.httpStatus in {None, Some(200), Some(500)};
    }
  }

  function Encode(r: JobResult): Stored { Stored(None, Some(r.status), r.data, r.error) }

  /** How a capture is to be served. */
  function ServedAs(c: Captured): JobView {
    match c
    case Good(v) => JobView(Done, Some(200), Some(v), None)
    case Unencodable(e) => JobView(Error, Some(500), None, Some("serialize result: " + e))
    case Failed(status, message) => JobView(Error, Some(status), None, Some(message))
  }

  /** What a worker stores is served as what the deciding capture was; a transient failure only
      after the last retry. */
  lemma ResultRoundTrips(outcomes: nat -> Captured, maxRetries: nat, k: nat)
    requires Decides(outcomes, maxRetries, k)
    ensures IntoJobView(Encode(Shape(outcomes(k)))) == ServedAs(outcomes(k))
    ensures outcomes(k).Failed? && outcomes(k).status in {408, 502, 503, 504} ==> k == maxRetries
  {
    match outcomes(k)
    case Good(v) => assert Shape(outcomes(k)).data == Some(v);
    case Unencodable(e) => assert Shape(outcomes(k)).status == 500;
    case Failed(status, message) => assert Transient(outcomes(k)) <==> IsRetryable(status);
  }
}
