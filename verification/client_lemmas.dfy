/**
  Properties of the retry loop and the poller of pkg/api/client.go: how many
  requests are made, in which order, how long the client sleeps, and which
  reply decides the outcome.
*/
module ClientLemmas {
  import opened Results
  import opened Text
  import opened JsonValues
  import opened ApiTypes
  import opened ApiClient

  // ---------------------------------------------------------------------------
  // Backoff
  // ---------------------------------------------------------------------------

  /** Seconds slept before attempts `a` through `k` of `do`. */
  function SleepSum(a: nat, k: nat): nat
    requires a <= k
    decreases k - a
  {
    if a == k then Backoff(k) else Backoff(a) + SleepSum(a + 1, k)
  }

  lemma {:induction false} SleepSumFrom(a: nat, k: nat)
    requires 1 <= a <= k
    ensures SleepSum(a, k) == Pow2(k) - Pow2(a - 1)
    decreases k - a
  {
    if a < k {
      SleepSumFrom(a + 1, k);
    } else {
      assert Pow2(k) == 2 * Pow2(k - 1);
    }
  }

  /** Before attempt `k` the client has slept 1 + 2 + ... + 2^(k-1) = 2^k - 1 seconds. */
  lemma BackoffTotal(k: nat)
    ensures SleepSum(0, k) == Pow2(k) - 1
  {
    if k > 0 {
      SleepSumFrom(1, k);
    }
  }

  /** The pause doubles from one retry to the next; the first attempt does not wait. */
  lemma BackoffDoubles(i: nat)
    ensures Backoff(0) == 0 && Backoff(1) == 1
    ensures i >= 1 ==> Backoff(i + 1) == 2 * Backoff(i)
  {
  }

  // ---------------------------------------------------------------------------
  // The retry loop
  // ---------------------------------------------------------------------------

  /** A rate-limited attempt sleeps its back-off and hands over to the next attempt. */
  lemma AttemptRetries(req: Request, target: Target, server: Server, a: nat)
    requires a <= MaxRetries && IsRateLimitedReply(server(a))
    ensures Attempt(req, target, server, a) == Then(Backoff(a), req, Attempt(req, target, server, a + 1))
  {
  }

  /**
    A family of runs in which run `i` is one pause and one submission in front
    of run `i + 1`: run `a` is `k - a` submissions in front of run `k`.
  */
  lemma {:induction false} ChainedRuns(runs: nat -> Run, req: Request, a: nat, k: nat)
    requires a <= k
    requires forall i | a <= i < k :: runs(i) == Then(Backoff(i), req, runs(i + 1))
    ensures runs(a).outcome == runs(k).outcome
    ensures runs(a).trace == Repeat(req, k - a) + runs(k).trace
    ensures runs(a).slept + Backoff(k) == SleepSum(a, k) + runs(k).slept
    decreases k - a
  {
    if a < k {
      ChainedRuns(runs, req, a + 1, k);
      assert Repeat(req, k - a) == [req] + Repeat(req, k - (a + 1));
      assert runs(a).trace == [req] + (Repeat(req, k - (a + 1)) + runs(k).trace);
    }
  }

  /** An attempt that is not rate limited is decided by its own reply, after its back-off. */
  lemma AttemptResponds(req: Request, target: Target, server: Server, k: nat)
    requires k <= MaxRetries && !IsRateLimitedReply(server(k))
    ensures var last := Respond(req, target, server, k);
      Attempt(req, target, server, k) == Run(last.outcome, last.trace, Backoff(k) + last.slept)
  {
  }

  /**
    From attempt `a`, rate-limited replies up to reply `k` mean that attempt
    `a` ends as attempt `k` does, after `k - a` more submissions of the same
    request and the back-offs in between.
  */
  lemma AttemptAfterRateLimits(req: Request, target: Target, server: Server, a: nat, k: nat)
    requires a <= k <= MaxRetries + 1
    requires forall i | a <= i < k :: IsRateLimitedReply(server(i))
    ensures Attempt(req, target, server, a).outcome == Attempt(req, target, server, k).outcome
    ensures Attempt(req, target, server, a).trace == Repeat(req, k - a) + Attempt(req, target, server, k).trace
    ensures Attempt(req, target, server, a).slept + Backoff(k) == SleepSum(a, k) + Attempt(req, target, server, k).slept
  {
    var runs := (i: nat) => if i <= MaxRetries + 1 then Attempt(req, target, server, i) else Run(Ok(None), [], 0);
    forall i | a <= i < k
      ensures runs(i) == Then(Backoff(i), req, runs(i + 1))
    {
      AttemptRetries(req, target, server, i);
    }
    ChainedRuns(runs, req, a, k);
  }

  /**
    `do` after `k <= 3` rate-limited replies: the request went out `k` times,
    the client slept 2^k - 1 seconds, and reply `k` alone decides the outcome.
  */
  lemma DoRetriesThenResponds(req: Request, target: Target, server: Server, k: nat)
    requires !req.payload.Unencodable?
    requires k <= MaxRetries
    requires forall i | 0 <= i < k :: IsRateLimitedReply(server(i))
    requires !IsRateLimitedReply(server(k))
    ensures var last := Respond(req, target, server, k);
      Do(req, target, server) == Run(last.outcome, Repeat(req, k) + last.trace, Pow2(k) - 1 + last.slept)
  {
    AttemptAfterRateLimits(req, target, server, 0, k);
    AttemptResponds(req, target, server, k);
    BackoffTotal(k);
  }

  /** k <= 3 rate limits followed by a 2xx without body to decode: success after exactly k + 1 requests. */
  lemma RateLimitedThenSuccess(req: Request, server: Server, k: nat)
    requires !req.payload.Unencodable?
    requires k <= MaxRetries
    requires forall i | 0 <= i < k :: IsRateLimitedReply(server(i))
    requires server(k).Response? && IsSuccess(server(k).status) && server(k).status != StatusAccepted
    ensures Do(req, Discard, server) == Run(Ok(None), Repeat(req, k + 1), Pow2(k) - 1)
  {
    DoRetriesThenResponds(req, Discard, server, k);
    assert Repeat(req, k) + [req] == Repeat(req, k + 1) by {
      RepeatSnoc(req, k);
    }
  }

  /** One more copy in front of `k` copies, and no copies at all, in front of a trace. */
  lemma RepeatCons(req: Request, k: nat, t: seq<Request>)
    ensures [req] + (Repeat(req, k) + t) == Repeat(req, k + 1) + t
    ensures Repeat(req, 0) + t == t
  {
    assert Repeat(req, k + 1) == [req] + Repeat(req, k);
  }

  lemma {:induction false} RepeatSnoc(req: Request, k: nat)
    ensures Repeat(req, k) + [req] == Repeat(req, k + 1)
  {
    if k > 0 {
      RepeatSnoc(req, k - 1);
      assert Repeat(req, k) + [req] == [req] + (Repeat(req, k - 1) + [req]);
    }
  }

  /** Four rate limits in a row: four requests, 7 seconds of sleep, and the "exceeded 3 retries" error. */
  lemma DoGivesUp(req: Request, target: Target, server: Server)
    requires !req.payload.Unencodable?
    requires forall i | 0 <= i <= MaxRetries :: IsRateLimitedReply(server(i))
    ensures Do(req, target, server) == Run(Err(RetriesExceeded(3, RateLimited)), Repeat(req, 4), 7)
    ensures Message(Do(req, target, server).outcome.error) == "exceeded 3 retries: rate limited (429)"
  {
    var r := Do(req, target, server);
    assert r.slept == Backoff(0) + Backoff(1) + Backoff(2) + Backoff(3);
    assert Pow2(2) == 4;
    assert Decimal(3) == "3";
  }

  /** A transport failure is returned at once: no retry after it. */
  lemma TransportFailureStops(req: Request, target: Target, server: Server, k: nat)
    requires !req.payload.Unencodable?
    requires k <= MaxRetries
    requires forall i | 0 <= i < k :: IsRateLimitedReply(server(i))
    requires server(k).Failed?
    ensures Do(req, target, server).outcome == Err(RequestFailed(server(k).complaint))
    ensures Do(req, target, server).trace == Repeat(req, k + 1)
  {
    DoRetriesThenResponds(req, target, server, k);
    RepeatSnoc(req, k);
  }

  /** A non-2xx status other than 429 is normalised and returned at once: no retry after it. */
  lemma ErrorStatusStops(req: Request, target: Target, server: Server, k: nat)
    requires !req.payload.Unencodable?
    requires k <= MaxRetries
    requires forall i | 0 <= i < k :: IsRateLimitedReply(server(i))
    requires server(k).Response? && !IsSuccess(server(k).status) && server(k).status != StatusTooManyRequests
    ensures Do(req, target, server).outcome == Err(ParseErrorResponse(server(k).status, server(k).body))
    ensures Do(req, target, server).trace == Repeat(req, k + 1)
  {
    DoRetriesThenResponds(req, target, server, k);
    RepeatSnoc(req, k);
  }

  /**
    A 202 hands over to the poller for good: the request was submitted k + 1
    times, every later request is a poll, and the poller's outcome is final.
  */
  lemma AcceptedIsFinal(req: Request, target: Target, server: Server, k: nat)
    requires !req.payload.Unencodable?
    requires k <= MaxRetries
    requires forall i | 0 <= i < k :: IsRateLimitedReply(server(i))
    requires server(k).Response? && server(k).status == StatusAccepted
    ensures var r := Do(req, target, server);
      && r.outcome == Poll(server(k).body, target, server, k + 1).outcome
      && |r.trace| > k && r.trace[..k + 1] == Repeat(req, k + 1)
      && forall i | k + 1 <= i < |r.trace| :: r.trace[i].verb == GET && r.trace[i].payload == NoPayload
  {
    DoRetriesThenResponds(req, target, server, k);
    RespondAccepted(req, target, server, k);
    var last := Respond(req, target, server, k);
    var r := Do(req, target, server);
    assert r.trace == Repeat(req, k) + last.trace;
    assert r.trace[..k + 1] == Repeat(req, k) + [req];
    RepeatSnoc(req, k);
    forall i | k + 1 <= i < |r.trace| ensures r.trace[i].verb == GET && r.trace[i].payload == NoPayload {
      assert r.trace[i] == last.trace[i - k];
    }
  }

  /** A 202 whose body names no request id succeeds with no polling, whether or not a target was given. */
  lemma AcceptedWithoutRequestId(req: Request, target: Target, server: Server)
    requires !req.payload.Unencodable?
    requires server(0).Response? && server(0).status == StatusAccepted
    requires AsyncRequestId(server(0).body).None?
    ensures Do(req, target, server) == Run(Ok(BestEffort(target, server(0).body)), [req], 0)
  {
    DoRetriesThenResponds(req, target, server, 0);
  }

  // ---------------------------------------------------------------------------
  // The poller
  // ---------------------------------------------------------------------------

  /** A pending reply costs one poll and one second, and the loop goes on. */
  lemma PollLoopPending(id: string, target: Target, server: Server, n: nat, p: nat)
    requires p < MaxPolls && StillPending(server(n + p))
    ensures PollLoop(id, target, server, n, p)
      == Then(PollIntervalSeconds, PollRequest(id), PollLoop(id, target, server, n, p + 1))
  {
  }

  /** A conclusive reply is the last poll, and its outcome is the loop's. */
  lemma PollLoopStops(id: string, target: Target, server: Server, n: nat, p: nat)
    requires p < MaxPolls && !StillPending(server(n + p))
    ensures PollLoop(id, target, server, n, p)
      == Run(PollStep(id, target, server(n + p)).value, [PollRequest(id)], PollIntervalSeconds)
  {
  }

  /** Replies `a` up to `b` are all pending, stated one reply at a time. */
  predicate AllPending(server: Server, a: nat, b: nat)
    decreases b - a
  {
    a >= b || (StillPending(server(a)) && AllPending(server, a + 1, b))
  }

  /** Pending replies over a range, stated for each reply, are pending one at a time. */
  lemma {:induction false} AllPendingFrom(server: Server, a: nat, b: nat)
    requires forall i | a <= i < b :: StillPending(server(i))
    ensures AllPending(server, a, b)
    decreases b - a
  {
    if a < b {
      AllPendingFrom(server, a + 1, b);
    }
  }

  /** `PollLoopSkipsPending`, by induction on the polls still to skip. */
  lemma {:induction false} PendingPolls(id: string, target: Target, server: Server, n: nat, p: nat, j: nat)
    requires p <= j <= MaxPolls
    requires AllPending(server, n + p, n + j)
    ensures PollLoop(id, target, server, n, p).outcome == PollLoop(id, target, server, n, j).outcome
    ensures PollLoop(id, target, server, n, p).trace
         == Repeat(PollRequest(id), j - p) + PollLoop(id, target, server, n, j).trace
    ensures PollLoop(id, target, server, n, p).slept == (j - p) * PollIntervalSeconds + PollLoop(id, target, server, n, j).slept
    decreases j - p
  {
    if p < j {
      PollLoopPending(id, target, server, n, p);
      PendingPolls(id, target, server, n, p + 1, j);
      RepeatCons(PollRequest(id), j - (p + 1), PollLoop(id, target, server, n, j).trace);
    } else {
      RepeatCons(PollRequest(id), 0, PollLoop(id, target, server, n, j).trace);
    }
  }

  /**
    From poll `p` on, pending replies up to reply `j` put `j - p` polls, one
    second apart, in front of the loop from poll `j`, and leave its outcome.
  */
  lemma PollLoopSkipsPending(id: string, target: Target, server: Server, n: nat, p: nat, j: nat)
    requires p <= j <= MaxPolls
    requires forall i | n + p <= i < n + j :: StillPending(server(i))
    ensures PollLoop(id, target, server, n, p).outcome == PollLoop(id, target, server, n, j).outcome
    ensures PollLoop(id, target, server, n, p).trace
         == Repeat(PollRequest(id), j - p) + PollLoop(id, target, server, n, j).trace
    ensures PollLoop(id, target, server, n, p).slept == (j - p) * PollIntervalSeconds + PollLoop(id, target, server, n, j).slept
  {
    AllPendingFrom(server, n + p, n + j);
    PendingPolls(id, target, server, n, p, j);
  }

  /**
    From poll `p` on, pending replies up to reply `j` and a conclusive reply `j`
    make the loop poll `j - p + 1` times, one second apart, and end with the
    outcome of reply `j`.
  */
  lemma PollLoopConcludes(id: string, target: Target, server: Server, n: nat, p: nat, j: nat)
    requires p <= j < MaxPolls
    requires forall i | n + p <= i < n + j :: StillPending(server(i))
    requires !StillPending(server(n + j))
    ensures PollLoop(id, target, server, n, p)
      == Run(PollStep(id, target, server(n + j)).value, Repeat(PollRequest(id), j - p + 1), j - p + 1)
  {
    PollLoopSkipsPending(id, target, server, n, p, j);
    PollLoopStops(id, target, server, n, j);
    RepeatSnoc(PollRequest(id), j - p);
  }

  /** Thirty pending replies in a row: thirty polls, thirty seconds, then the timeout error. */
  lemma PollLoopTimesOut(id: string, target: Target, server: Server, n: nat, p: nat)
    requires p <= MaxPolls
    requires forall i | n + p <= i < n + MaxPolls :: StillPending(server(i))
    ensures PollLoop(id, target, server, n, p)
      == Run(Err(PollTimedOut(id)), Repeat(PollRequest(id), MaxPolls - p), MaxPolls - p)
  {
    PollLoopSkipsPending(id, target, server, n, p, MaxPolls);
    assert Repeat(PollRequest(id), MaxPolls - p) + [] == Repeat(PollRequest(id), MaxPolls - p);
  }

  /** A single poll never reports the poller's own timeout. */
  lemma PollStepNeverTimesOut(id: string, target: Target, reply: Reply)
    ensures PollStep(id, target, reply).Some? ==> PollStep(id, target, reply).value != Err(PollTimedOut(id))
  {
  }

  /** Conversely, the loop times out only when every remaining reply was pending. */
  lemma {:induction false} PollLoopTimeoutAllPending(id: string, target: Target, server: Server, n: nat, p: nat)
    requires p <= MaxPolls
    requires PollLoop(id, target, server, n, p).outcome == Err(PollTimedOut(id))
    ensures forall i | n + p <= i < n + MaxPolls :: StillPending(server(i))
    decreases MaxPolls - p
  {
    if p < MaxPolls {
      if !StillPending(server(n + p)) {
        PollLoopStops(id, target, server, n, p);
        PollStepNeverTimesOut(id, target, server(n + p));
        assert false;
      }
      PollLoopPending(id, target, server, n, p);
      PollLoopTimeoutAllPending(id, target, server, n, p + 1);
    }
  }

  /** The timeout error names the request id and the 30 s deadline. */
  lemma TimeoutMessage(id: string)
    ensures Message(PollTimedOut(id)) == "timed out waiting for async request " + id + " after 30s"
  {
    assert NatDigits(30) == NatDigits(3) + [DigitChar(0)];
  }

  /** A terminal failure names the request id and the state it ended in. */
  lemma AsyncFailureMessage(id: string, state: string)
    ensures Contains(Message(AsyncFailed(id, state)), id)
    ensures Contains(Message(AsyncFailed(id, state)), state)
  {
    ContainsMiddle("async request ", id, " " + state);
    assert Message(AsyncFailed(id, state)) == "async request " + id + (" " + state);
    ContainsMiddle("async request " + id + " ", state, "");
    assert Message(AsyncFailed(id, state)) == "async request " + id + " " + state + "";
  }

  /** After a 202 with a request id, a first reply still "Processing" and a second that succeeded: two polls, success. */
  lemma ProcessingThenSucceeded(id: string, target: Target, server: Server, n: nat)
    requires StillPending(server(n))
    requires server(n + 1).Response? && IsSuccess(server(n + 1).status)
    requires PollStatus(server(n + 1).body).Some? && PollStatus(server(n + 1).body).value.isSuccess
    ensures PollLoop(id, target, server, n, 0)
      == Run(Ok(BestEffort(target, server(n + 1).body)), [PollRequest(id), PollRequest(id)], 2)
  {
    PollLoopConcludes(id, target, server, n, 0, 1);
  }
}
