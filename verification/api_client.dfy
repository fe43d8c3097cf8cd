/**
  The request/response core of pkg/api/client.go: the rate-limit retry loop
  `do`, the asynchronous-request poller and error normalisation.

  The network is a scripted server: `server(i)` is what the i-th call of
  `doRequest` in one operation returns once the request body has been encoded.
  Time is not read from a clock; every run reports the seconds it slept.
*/
module ApiClient {
  import opened Results
  import opened Text
  import opened JsonValues
  import opened ApiTypes

  const MaxRetries: nat := 3
  const PollIntervalSeconds: nat := 1
  const MaxPollSeconds: nat := 30
  /** With a zero-latency server the deadline admits one poll per interval. */
  const MaxPolls: nat := MaxPollSeconds / PollIntervalSeconds
  const ErrorBodyLimit: nat := 500
  const PollPathPrefix := "/v2/alerts/requests/"

  const StatusAccepted: int := 202
  const StatusTooManyRequests: int := 429

  datatype Method = GET | POST | PUT | PATCH | DELETE

  /** A request body: none (Go nil), a JSON-encodable value, or one encoding/json rejects. */
  datatype Payload = NoPayload | Payload(value: Json) | Unencodable(complaint: string)

  datatype Request = Request(verb: Method, path: string, payload: Payload)

  /** A response body: empty, text that is not JSON, or the text of a JSON value. */
  datatype Body = Empty | Malformed(raw: string) | Parsed(raw: string, value: Json)

  /** One `doRequest` outcome: a status and body, or a transport failure with its text. */
  datatype Reply = Response(status: int, body: Body) | Failed(complaint: string)

  type Server = nat -> Reply

  /** Where the caller wants the result: nowhere (nil), or a Go value that accepts some JSON shapes. */
  datatype Target = Discard | Into(accepts: Json -> bool)

  /** The errors `do`, the poller and `ListAll` can return. */
  datatype Error =
    | MarshalRequest(complaint: string)
    | RequestFailed(complaint: string)
    | RateLimited
    | RetriesExceeded(retries: nat, last: Error)
    | Api(response: ErrorResponse)
    | ApiStatus(status: int, body: string)
    | ParseResponse
    | PollRequestFailed(requestId: string, complaint: string)
    | ParsePollResponse
    | AsyncFailed(requestId: string, state: string)
    | PollTimedOut(requestId: string)
    | RateLimitedDuringPagination
    | ParsePage
    | DecodeCombined

  /**
    The outcome of one operation, with the requests that reached `doRequest` in
    order and the total seconds slept. On success the payload is the JSON value
    decoded into the caller's target, if any.
  */
  datatype Run = Run(outcome: Result<Option<Json>, Error>, trace: seq<Request>, slept: nat)

  predicate IsSuccess(status: int) { 200 <= status < 300 }

  predicate IsRateLimitedReply(r: Reply) { r.Response? && r.status == StatusTooManyRequests }

  /** The text of the body, empty for an empty body. */
  function Raw(b: Body): string
  {
    match b
    case Empty => ""
    case Malformed(raw) => raw
    case Parsed(raw, _) => raw
  }

  /** The JSON value of a body; an empty text never decodes. */
  function Decoded(b: Body): (r: Option<Json>)
    ensures r.Some? ==> Raw(b) != ""
    ensures r.Some? <==> b.Parsed? && b.raw != ""
    ensures r.Some? ==> r.value == b.value
  {
    if b.Parsed? && b.raw != "" then Some(b.value) else None
  }

  /** `json.Unmarshal(body, target)` with the error ignored: what the target ends up holding. */
  function BestEffort(target: Target, b: Body): (r: Option<Json>)
    ensures r.Some? ==> target.Into? && Decoded(b) == Some(r.value) && target.accepts(r.value)
    ensures target.Into? && Decoded(b).Some? && target.accepts(Decoded(b).value) ==> r == Decoded(b)
  {
    match target
    case Discard => None
    case Into(accepts) =>
      match Decoded(b)
      case Some(v) => if accepts(v) then Some(v) else None
      case None => None
  }

  /** Text of an error, as its Go `Error()` method prints it. */
  function Message(e: Error): string
  {
    match e
    case MarshalRequest(c) => "marshal request: " + c
    case RequestFailed(c) => c
    case RateLimited => "rate limited (429)"
    case RetriesExceeded(n, last) => "exceeded " + Decimal(n) + " retries: " + Message(last)
    case Api(er) => Render(er)
    case ApiStatus(status, body) => "API error (status " + Decimal(status) + "): " + Truncate(body, ErrorBodyLimit)
    case ParseResponse => "parse response"
    case PollRequestFailed(id, c) => "poll request " + id + ": " + c
    case ParsePollResponse => "parse poll response"
    case AsyncFailed(id, state) => "async request " + id + " " + state
    case PollTimedOut(id) => "timed out waiting for async request " + id + " after " + Decimal(MaxPollSeconds) + "s"
    case RateLimitedDuringPagination => "rate limited during pagination"
    case ParsePage => "parse page"
    case DecodeCombined => "decode combined results"
  }

  /**
    Each message keeps what its error carries: a wrapped error's whole text and
    the retry count, the API's own rendering (read back exactly), the status of
    a generic API error, the request id and complaint of a failed poll, the
    encoder's complaint, and a transport failure's own text.
  */
  lemma MessageKeepsCause(e: Error)
    ensures e.RetriesExceeded? ==> Contains(Message(e), Message(e.last)) && Contains(Message(e), Decimal(e.retries))
    ensures e.Api? ==> ParseRendered(Message(e)) == Some(e.response)
    ensures e.ApiStatus? ==> Contains(Message(e), Decimal(e.status))
    ensures e.PollRequestFailed? ==> Contains(Message(e), e.requestId) && Contains(Message(e), e.complaint)
    ensures e.MarshalRequest? ==> Contains(Message(e), e.complaint)
    ensures e.RequestFailed? ==> Message(e) == e.complaint
  {
    match e
    case RetriesExceeded(n, last) => RetriesMessage(n, last);
    case Api(er) => RenderRoundTrip(er);
    case ApiStatus(status, body) => ApiStatusMessage(status, body);
    case PollRequestFailed(id, c) => ContainsSecondAndThird("poll request " + id, ": ", c); PollFailureMessage(id, c);
    case MarshalRequest(c) => ContainsMiddle("marshal request: ", c, ""); assert Message(e) + "" == Message(e);
    case _ =>
  }

  /** The retry error repeats the last error's text and the retry count. */
  lemma RetriesMessage(n: nat, last: Error)
    ensures Contains(Message(RetriesExceeded(n, last)), Message(last))
    ensures Contains(Message(RetriesExceeded(n, last)), Decimal(n))
  {
    ContainsSecondAndThird("exceeded " + Decimal(n), " retries: ", Message(last));
    ContainsMiddle("exceeded ", Decimal(n), " retries: " + Message(last));
    assert Message(RetriesExceeded(n, last)) == "exceeded " + Decimal(n) + (" retries: " + Message(last));
  }

  /** The generic API error names the status. */
  lemma ApiStatusMessage(status: int, body: string)
    ensures Contains(Message(ApiStatus(status, body)), Decimal(status))
  {
    ContainsMiddle("API error (status ", Decimal(status), "): " + Truncate(body, ErrorBodyLimit));
    assert Message(ApiStatus(status, body)) == "API error (status " + Decimal(status) + ("): " + Truncate(body, ErrorBodyLimit));
  }

  /** A failed poll names the request id. */
  lemma PollFailureMessage(id: string, c: string)
    ensures Contains(Message(PollRequestFailed(id, c)), id)
  {
    ContainsMiddle("poll request ", id, ": " + c);
    assert Message(PollRequestFailed(id, c)) == "poll request " + id + (": " + c);
  }

  // ---------------------------------------------------------------------------
  // Error normalisation
  // ---------------------------------------------------------------------------

  /** The message a body offers as an `ErrorResponse`, or "" when it offers none. */
  function OfferedMessage(b: Body): (r: string)
    ensures r != "" ==>
      Decoded(b).Some? && DecodeErrorResponse(Decoded(b).value).Some?
      && DecodeErrorResponse(Decoded(b).value).value.message == r
    ensures Decoded(b).Some? && DecodeErrorResponse(Decoded(b).value).Some? ==>
      r == DecodeErrorResponse(Decoded(b).value).value.message
  {
    match Decoded(b)
    case None => ""
    case Some(v) =>
      match DecodeErrorResponse(v)
      case None => ""
      case Some(er) => er.message
  }

  /**
    `parseErrorResponse`: a body that decodes with a non-empty message becomes
    an `ErrorResponse` carrying the HTTP status, whatever code the body claims;
    any other body becomes the generic status error over the raw text.
  */
  function ParseErrorResponse(status: int, b: Body): (e: Error)
    ensures e.Api? <==> OfferedMessage(b) != ""
    ensures e.Api? ==> e.response == ErrorResponse(OfferedMessage(b), status)
    ensures !e.Api? ==> e == ApiStatus(status, Raw(b))
  {
    var offered := OfferedMessage(b);
    if offered != "" then Api(ErrorResponse(offered, status)) else ApiStatus(status, Raw(b))
  }

  /** Whatever the body, the normalised error's text names the HTTP status. */
  lemma ParseErrorResponseNamesStatus(status: int, b: Body)
    ensures Contains(Message(ParseErrorResponse(status, b)), Decimal(status))
  {
    var e := ParseErrorResponse(status, b);
    if e.Api? {
      RenderMentions(e.response);
    } else {
      ContainsMiddle("API error (status ", Decimal(status), "): " + Truncate(Raw(b), ErrorBodyLimit));
      assert Message(e) == "API error (status " + Decimal(status) + ("): " + Truncate(Raw(b), ErrorBodyLimit));
    }
  }

  /** The generic error keeps at most 500 characters of the body, plus "..." when it cut. */
  lemma GenericErrorBounded(status: int, b: Body)
    requires OfferedMessage(b) == ""
    ensures Message(ParseErrorResponse(status, b))
      == "API error (status " + Decimal(status) + "): " + Truncate(Raw(b), ErrorBodyLimit)
    ensures |Truncate(Raw(b), ErrorBodyLimit)| <= ErrorBodyLimit + 3
  {
  }

  // ---------------------------------------------------------------------------
  // Asynchronous requests (202 Accepted)
  // ---------------------------------------------------------------------------

  /**
    The request id of a 202 body, decoded into `{requestId, result string}`:
    None when the body does not decode, a field is mistyped, or the id is empty.
  */
  function AsyncRequestId(b: Body): (r: Option<string>)
    ensures r.Some? ==> r.value != ""
    ensures r.Some? ==>
      Decoded(b).Some? && Decoded(b).value.JObject?
      && StringMember(Decoded(b).value.members, "requestId") == Some(r.value)
      && StringMember(Decoded(b).value.members, "result").Some?
    ensures (Decoded(b).Some? && Decoded(b).value.JObject?
             && StringMember(Decoded(b).value.members, "requestId").Some?
             && StringMember(Decoded(b).value.members, "requestId").value != ""
             && StringMember(Decoded(b).value.members, "result").Some?) ==>
      r == StringMember(Decoded(b).value.members, "requestId")
  {
    match Decoded(b)
    case Some(JObject(m)) =>
      (match (StringMember(m, "requestId"), StringMember(m, "result"))
       case (Some(id), Some(_)) => if id != "" then Some(id) else None
       case _ => None)
    case _ => None
  }

  /** The `data` block of a poll response: whether the request succeeded and its state. */
  datatype RequestStatus = RequestStatus(isSuccess: bool, state: string)

  /** The `data` member of a poll body when that member is an object. */
  predicate HasDataObject(b: Body)
  {
    Decoded(b).Some? && Decoded(b).value.JObject? && "data" in Decoded(b).value.members
    && Decoded(b).value.members["data"].JObject?
  }

  /**
    Decoding `{data: {isSuccess, status}}`; `null` at either level leaves the
    zero values. Other members of `data` are ignored.
  */
  function PollStatus(b: Body): (r: Option<RequestStatus>)
    ensures Decoded(b).None? ==> r.None?
    ensures Decoded(b).Some? && !Decoded(b).value.JObject? && !Decoded(b).value.JNull? ==> r.None?
    ensures HasDataObject(b) ==>
      var d := Decoded(b).value.members["data"].members;
      (r.Some? <==> BoolMember(d, "isSuccess").Some? && StringMember(d, "status").Some?)
      && (r.Some? ==> r.value == RequestStatus(BoolMember(d, "isSuccess").value, StringMember(d, "status").value))
    ensures r.Some? && !HasDataObject(b) ==> r.value == RequestStatus(false, "")
    ensures Decoded(b).Some? && (Decoded(b).value.JNull? || (Decoded(b).value.JObject?
             && ("data" !in Decoded(b).value.members || Decoded(b).value.members["data"].JNull?))) ==>
      r == Some(RequestStatus(false, ""))
    ensures Decoded(b).Some? && Decoded(b).value.JObject? && "data" in Decoded(b).value.members
             && !Decoded(b).value.members["data"].JObject? && !Decoded(b).value.members["data"].JNull? ==>
      r.None?
  {
    match Decoded(b)
    case Some(JNull) => Some(RequestStatus(false, ""))
    case Some(JObject(m)) =>
      if "data" !in m then Some(RequestStatus(false, ""))
      else
        (match m["data"]
         case JNull => Some(RequestStatus(false, ""))
         case JObject(d) =>
           (match (BoolMember(d, "isSuccess"), StringMember(d, "status"))
            case (Some(ok), Some(state)) => Some(RequestStatus(ok, state))
            case _ => None)
         case _ => None)
    case _ => None
  }

  predicate IsTerminalFailure(state: string) { state == "failed" || state == "cancelled" }

  /** A poll reply that leaves the request still in progress. */
  predicate StillPending(r: Reply)
  {
    && r.Response?
    && IsSuccess(r.status)
    && PollStatus(r.body).Some?
    && !PollStatus(r.body).value.isSuccess
    && !IsTerminalFailure(PollStatus(r.body).value.state)
  }

  function PollPath(id: string): string { PollPathPrefix + id }

  function PollRequest(id: string): Request { Request(GET, PollPath(id), NoPayload) }

  /** One poll: None to keep polling, otherwise the final outcome of the operation. */
  function PollStep(id: string, target: Target, reply: Reply): (r: Option<Result<Option<Json>, Error>>)
    ensures r.None? <==> StillPending(reply)
    ensures reply.Failed? ==> r == Some(Err(PollRequestFailed(id, reply.complaint)))
    ensures reply.Response? && !IsSuccess(reply.status) ==>
      r == Some(Err(ParseErrorResponse(reply.status, reply.body)))
    ensures reply.Response? && IsSuccess(reply.status) && PollStatus(reply.body).None? ==>
      r == Some(Err(ParsePollResponse))
    ensures (reply.Response? && IsSuccess(reply.status) && PollStatus(reply.body).Some?
             && PollStatus(reply.body).value.isSuccess) ==>
      r == Some(Ok(BestEffort(target, reply.body)))
    ensures (reply.Response? && IsSuccess(reply.status) && PollStatus(reply.body).Some?
             && !PollStatus(reply.body).value.isSuccess && IsTerminalFailure(PollStatus(reply.body).value.state)) ==>
      r == Some(Err(AsyncFailed(id, PollStatus(reply.body).value.state)))
    ensures r.Some? && r.value.Ok? ==>
      reply.Response? && PollStatus(reply.body).Some? && PollStatus(reply.body).value.isSuccess
    ensures r.Some? && r.value.Err? && r.value.error.AsyncFailed? ==>
      r.value.error.requestId == id && IsTerminalFailure(r.value.error.state)
  {
    match reply
    case Failed(c) => Some(Err(PollRequestFailed(id, c)))
    case Response(status, b) =>
      if !IsSuccess(status) then Some(Err(ParseErrorResponse(status, b)))
      else
        match PollStatus(b)
        case None => Some(Err(ParsePollResponse))
        case Some(st) =>
          if st.isSuccess then Some(Ok(BestEffort(target, b)))
          else if IsTerminalFailure(st.state) then Some(Err(AsyncFailed(id, st.state)))
          else None
  }

  /** Prefixes a run with one request made after sleeping `pause` seconds. */
  function Then(pause: nat, req: Request, r: Run): Run
  {
    Run(r.outcome, [req] + r.trace, pause + r.slept)
  }

  /** Every request of `trace` is `req`. */
  predicate AllAre(trace: seq<Request>, req: Request)
  {
    forall i | 0 <= i < |trace| :: trace[i] == req
  }

  /** The poll loop from poll number `polls` on; the server's reply index is `n + polls`. */
  function PollLoop(id: string, target: Target, server: Server, n: nat, polls: nat): (r: Run)
    requires polls <= MaxPolls
    ensures |r.trace| <= MaxPolls - polls
    ensures r.slept == |r.trace| * PollIntervalSeconds
    ensures AllAre(r.trace, PollRequest(id))
    ensures r.outcome == Err(PollTimedOut(id)) <==> |r.trace| == MaxPolls - polls && r.outcome.Err? && r.outcome.error.PollTimedOut?
    ensures r.outcome.Err? && r.outcome.error.PollTimedOut? ==> r.outcome.error.requestId == id
    ensures r.outcome.Err? ==> !r.outcome.error.RetriesExceeded?
    decreases MaxPolls - polls
  {
    if polls == MaxPolls then Run(Err(PollTimedOut(id)), [], 0)
    else
      match PollStep(id, target, server(n + polls))
      case Some(out) => Run(out, [PollRequest(id)], PollIntervalSeconds)
      case None => Then(PollIntervalSeconds, PollRequest(id), PollLoop(id, target, server, n, polls + 1))
  }

  /**
    `pollRequestResult`: a 202 body without a usable request id is a success
    with no polling; otherwise poll until a conclusive reply or the deadline.
  */
  function Poll(b: Body, target: Target, server: Server, n: nat): (r: Run)
    ensures AsyncRequestId(b).None? ==> r == Run(Ok(BestEffort(target, b)), [], 0)
    ensures AsyncRequestId(b).Some? ==> AllAre(r.trace, PollRequest(AsyncRequestId(b).value))
    ensures |r.trace| <= MaxPolls
    ensures r.slept == |r.trace| * PollIntervalSeconds
    ensures r.outcome.Err? ==> !r.outcome.error.RetriesExceeded?
  {
    match AsyncRequestId(b)
    case None => Run(Ok(BestEffort(target, b)), [], 0)
    case Some(id) => PollLoop(id, target, server, n, 0)
  }

  // ---------------------------------------------------------------------------
  // The retry loop `do`
  // ---------------------------------------------------------------------------

  function Pow2(k: nat): (r: nat)
    ensures r >= 1
  {
    if k == 0 then 1 else 2 * Pow2(k - 1)
  }

  /** Seconds slept before attempt `attempt`: none before the first, then 1, 2, 4, ... */
  function Backoff(attempt: nat): nat
  {
    if attempt == 0 then 0 else Pow2(attempt - 1)
  }

  /** A request that is never resubmitted: its only trace entry is the first. */
  predicate PollsOnlyAfter(trace: seq<Request>)
  {
    forall i | 1 <= i < |trace| :: trace[i].verb == GET && trace[i].payload == NoPayload
      && |PollPathPrefix| <= |trace[i].path| && trace[i].path[..|PollPathPrefix|] == PollPathPrefix
  }

  /**
    Handling of a reply that is not a rate limit: 202 hands over to the poller,
    a non-2xx status is an error, a 2xx status decodes into the target when
    there is one and the body is not empty.
  */
  function Respond(req: Request, target: Target, server: Server, n: nat): (r: Run)
    ensures |r.trace| >= 1 && r.trace[0] == req
    ensures PollsOnlyAfter(r.trace)
    ensures |r.trace| <= 1 + MaxPolls
    ensures r.slept == |r.trace| - 1
    ensures server(n).Failed? ==> r == Run(Err(RequestFailed(server(n).complaint)), [req], 0)
    ensures server(n).Response? && !IsSuccess(server(n).status) ==>
      r == Run(Err(ParseErrorResponse(server(n).status, server(n).body)), [req], 0)
    ensures server(n).Response? && server(n).status != StatusAccepted ==> |r.trace| == 1
    ensures server(n).Response? && IsSuccess(server(n).status) && server(n).status != StatusAccepted ==>
      && (target.Discard? || Raw(server(n).body) == "" ==> r.outcome == Ok(None))
      && (target.Into? && Raw(server(n).body) != "" ==>
            (r.outcome.Ok? <==> Decoded(server(n).body).Some? && target.accepts(Decoded(server(n).body).value)))
      && (target.Into? && Raw(server(n).body) != "" && r.outcome.Ok? ==> r.outcome.value == Decoded(server(n).body))
      && (r.outcome.Err? ==> r.outcome.error == ParseResponse)
    ensures r.outcome.Err? ==> !r.outcome.error.RetriesExceeded?
  {
    match server(n)
    case Failed(c) => Run(Err(RequestFailed(c)), [req], 0)
    case Response(status, b) =>
      if status == StatusAccepted then
        Then(0, req, Poll(b, target, server, n + 1))
      else if !IsSuccess(status) then Run(Err(ParseErrorResponse(status, b)), [req], 0)
      else if target.Discard? || Raw(b) == "" then Run(Ok(None), [req], 0)
      else if Decoded(b).Some? && target.accepts(Decoded(b).value) then Run(Ok(Some(Decoded(b).value)), [req], 0)
      else Run(Err(ParseResponse), [req], 0)
  }

  /**
    A 202 reply hands the request over to the poller: the outcome is the
    poller's, and its polls, on the replies after this one, follow the request.
  */
  lemma RespondAccepted(req: Request, target: Target, server: Server, n: nat)
    requires server(n).Response? && server(n).status == StatusAccepted
    ensures Respond(req, target, server, n) == Then(0, req, Poll(server(n).body, target, server, n + 1))
  {
  }

  /** `k` copies of `req`. */
  function Repeat(req: Request, k: nat): (t: seq<Request>)
    ensures |t| == k && AllAre(t, req)
  {
    if k == 0 then [] else [req] + Repeat(req, k - 1)
  }

  predicate GaveUp(r: Run) { r.outcome.Err? && r.outcome.error.RetriesExceeded? }

  /**
    The loop of `do` from attempt `attempt` on. Since every earlier attempt was
    rate limited, attempt `i` receives the server's reply number `i`.
  */
  function Attempt(req: Request, target: Target, server: Server, attempt: nat): (r: Run)
    requires attempt <= MaxRetries + 1
    ensures |r.trace| <= MaxRetries + 1 - attempt + MaxPolls
    ensures GaveUp(r) <==> forall i | attempt <= i <= MaxRetries :: IsRateLimitedReply(server(i))
    ensures GaveUp(r) ==>
      r.outcome == Err(RetriesExceeded(MaxRetries, RateLimited)) && r.trace == Repeat(req, MaxRetries + 1 - attempt)
    decreases MaxRetries + 1 - attempt
  {
    if attempt > MaxRetries then Run(Err(RetriesExceeded(MaxRetries, RateLimited)), [], 0)
    else if IsRateLimitedReply(server(attempt)) then
      Then(Backoff(attempt), req, Attempt(req, target, server, attempt + 1))
    else
      var r := Respond(req, target, server, attempt);
      Run(r.outcome, r.trace, Backoff(attempt) + r.slept)
  }

  /**
    `do`: a body that cannot be encoded fails before any request; otherwise
    retry rate-limited replies at most three times.
  */
  function Do(req: Request, target: Target, server: Server): (r: Run)
    ensures req.payload.Unencodable? ==> r == Run(Err(MarshalRequest(req.payload.complaint)), [], 0)
    ensures !req.payload.Unencodable? ==> |r.trace| >= 1 && r.trace[0] == req
    ensures |r.trace| <= MaxRetries + 1 + MaxPolls
    ensures GaveUp(r) <==> !req.payload.Unencodable? && forall i | 0 <= i <= MaxRetries :: IsRateLimitedReply(server(i))
  {
    if req.payload.Unencodable? then Run(Err(MarshalRequest(req.payload.complaint)), [], 0)
    else Attempt(req, target, server, 0)
  }

  function Get(path: string, target: Target, server: Server): Run
  {
    Do(Request(GET, path, NoPayload), target, server)
  }

  function Post(path: string, body: Payload, target: Target, server: Server): Run
  {
    Do(Request(POST, path, body), target, server)
  }

  function Put(path: string, body: Payload, target: Target, server: Server): Run
  {
    Do(Request(PUT, path, body), target, server)
  }

  function Patch(path: string, body: Payload, target: Target, server: Server): Run
  {
    Do(Request(PATCH, path, body), target, server)
  }

  function Delete(path: string, target: Target, server: Server): Run
  {
    Do(Request(DELETE, path, NoPayload), target, server)
  }
}
