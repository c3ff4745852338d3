/**
 * The serialized, bounded RPC transport of the lifecycle proof. One request is performed at a time, in
 * order of arrival; while it awaits, the clock runs and further requests may arrive.
 */
module FetchHistory {
  const SPACING := 500
  const MAX_COUNT := 600
  const ATTEMPTS := 3

  /** Every RPC method but the broadcast is an idempotent read. */
  predicate IsRead(rpc: string) {
    rpc != "sendTransaction"
  }

  datatype RetryAfter = Absent | Millis(ms: int) | Malformed
  datatype Reply = Lost | Success(complete: bool) | Failure(status: int, retryAfter: RetryAfter)

  /** One physical request: whose it was, when it started and what came back. */
  datatype Transport = Transport(request: nat, at: int, reply: Reply)

  predicate Throttled(reply: Reply) {
    reply.Failure? && reply.status == 429
  }

  /** A transport half a second or more after the one before: for a later request, or again for a throttled read. */
  predicate Follows(before: Transport, next: Transport, requests: seq<string>) {
    && next.at >= before.at + SPACING && before.request <= next.request
    && (before.request == next.request ==>
          Throttled(before.reply) && before.request < |requests| && IsRead(requests[before.request]))
  }

  predicate Entry(log: seq<Transport>, requests: seq<string>, deadline: int, i: nat)
    requires i < |log|
  {
    && log[i].request < |requests| && log[i].at < deadline
    && (i > 0 ==> Follows(log[i - 1], log[i], requests))
    && (i >= ATTEMPTS ==> log[i - ATTEMPTS].request < log[i].request)
  }

  /** The log of physical requests: bounded, paced, in order, and retried only for throttled reads. */
  predicate Paced(log: seq<Transport>, requests: seq<string>, deadline: int) {
    |log| <= MAX_COUNT && forall i :: 0 <= i < |log| ==> Entry(log, requests, deadline, i)
  }

  /** The last `attempt` transports were throttled tries of this read; the one before was for an earlier request. */
  predicate Trying(log: seq<Transport>, requests: seq<string>, request: nat, attempt: nat) {
    && attempt <= |log| && request < |requests| && (attempt > 0 ==> IsRead(requests[request]))
    && (attempt < |log| ==> log[|log| - attempt - 1].request < request)
    && forall i :: |log| - attempt <= i < |log| ==> log[i].request == request && Throttled(log[i].reply)
  }

  /** Everything in the log is for a request already served. */
  predicate Behind(log: seq<Transport>, served: nat) {
    log != [] ==> log[|log| - 1].request < served
  }

  lemma TryingIsBehind(log: seq<Transport>, requests: seq<string>, request: nat, attempt: nat)
    requires Trying(log, requests, request, attempt)
    ensures Behind(log, request + 1)
  {
  }

  lemma NextEntry(log: seq<Transport>, requests: seq<string>, deadline: int, next: Transport, attempt: nat)
    requires Paced(log, requests, deadline) && next.at < deadline
    requires Trying(log, requests, next.request, attempt) && attempt < ATTEMPTS
    requires log != [] ==> next.at >= log[|log| - 1].at + SPACING
    ensures Entry(log + [next], requests, deadline, |log|)
  {
    var n := |log|;
    if n >= 1 && attempt > 0 { assert log[n - 1].request == next.request && Throttled(log[n - 1].reply); }
    if n >= 2 { assert Entry(log, requests, deadline, n - 1); }
    if n >= 3 { assert Entry(log, requests, deadline, n - 2); }
  }

  /** A transport may follow when it is late enough and is a new request or the retry of a throttled read. */
  lemma PacedStep(log: seq<Transport>, requests: seq<string>, deadline: int, next: Transport, attempt: nat)
    requires Paced(log, requests, deadline) && |log| < MAX_COUNT && next.at < deadline
    requires Trying(log, requests, next.request, attempt) && attempt < ATTEMPTS
    requires log != [] ==> next.at >= log[|log| - 1].at + SPACING
    ensures Paced(log + [next], requests, deadline)
    ensures Throttled(next.reply) && IsRead(requests[next.request]) ==>
              Trying(log + [next], requests, next.request, attempt + 1)
  {
    NextEntry(log, requests, deadline, next, attempt);
    forall i | 0 <= i < |log| ensures Entry(log + [next], requests, deadline, i) {
      assert Entry(log, requests, deadline, i);
    }
  }

  lemma MoreRequests(log: seq<Transport>, requests: seq<string>, later: seq<string>, deadline: int)
    requires Paced(log, requests, deadline) && requests <= later
    ensures Paced(log, later, deadline)
  {
    forall i | 0 <= i < |log| ensures Entry(log, later, deadline, i) {
      assert Entry(log, requests, deadline, i);
    }
  }

  lemma StillTrying(log: seq<Transport>, requests: seq<string>, later: seq<string>, request: nat, attempt: nat)
    requires Trying(log, requests, request, attempt) && requests <= later
    ensures Trying(log, later, request, attempt)
  {
  }

  /** Requests are transported in order of arrival, and starts are spread over half a second each. */
  lemma {:induction false} Spread(log: seq<Transport>, requests: seq<string>, deadline: int, i: nat, j: nat)
    requires Paced(log, requests, deadline) && i <= j < |log|
    ensures log[i].request <= log[j].request && log[j].at - log[i].at >= SPACING * (j - i)
    decreases j - i
  {
    if i < j {
      Spread(log, requests, deadline, i, j - 1);
      assert Entry(log, requests, deadline, j);
    }
  }

  lemma FarApart(log: seq<Transport>, requests: seq<string>, deadline: int, i: nat, j: nat)
    requires Paced(log, requests, deadline) && i + ATTEMPTS <= j < |log|
    ensures log[i].request < log[j].request
  {
    Spread(log, requests, deadline, i, j - ATTEMPTS);
    assert Entry(log, requests, deadline, j);
  }

  lemma SameRequest(log: seq<Transport>, requests: seq<string>, deadline: int, i: nat, j: nat, k: nat)
    requires Paced(log, requests, deadline) && i <= k < j < |log| && log[i].request == log[j].request
    ensures log[k].request == log[i].request < |requests| && Throttled(log[k].reply) && IsRead(requests[log[i].request])
  {
    Spread(log, requests, deadline, i, k);
    Spread(log, requests, deadline, k + 1, j);
    assert Entry(log, requests, deadline, k + 1);
  }

  /** No broadcast is transported twice, and no request more than three times. */
  lemma AtMostOnce(log: seq<Transport>, requests: seq<string>, deadline: int, i: nat, j: nat)
    requires Paced(log, requests, deadline) && i < j < |log| && log[i].request == log[j].request
    ensures log[i].request < |requests| && requests[log[i].request] != "sendTransaction" && j <= i + 2
    ensures forall k :: i <= k < j ==> log[k].request == log[i].request && Throttled(log[k].reply)
  {
    forall k | i <= k < j ensures log[k].request == log[i].request && Throttled(log[k].reply) {
      SameRequest(log, requests, deadline, i, j, k);
    }
    SameRequest(log, requests, deadline, i, j, i);
    if j >= i + ATTEMPTS { FarApart(log, requests, deadline, i, j); }
  }

  /** Any run of consecutive transports is spread over half a second each, so a minute sees at most 121. */
  lemma RateLimit(log: seq<Transport>, requests: seq<string>, deadline: int, i: nat, j: nat)
    requires Paced(log, requests, deadline) && i <= j < |log|
    ensures SPACING * (j - i) <= log[j].at - log[i].at
    ensures log[j].at - log[i].at <= 60_000 ==> j - i + 1 <= 121
  {
    Spread(log, requests, deadline, i, j);
  }
}

module BoundedFetch {
  import opened FetchHistory

  datatype Verdict = Answered | Refused
  datatype Next = Again | Stop(verdict: Verdict)

  const RPC_URL := "https://api.devnet.solana.com"
  const ALLOWED := {"getGenesisHash", "getMultipleAccounts", "getAccountInfo", "getBalance",
                    "getMinimumBalanceForRentExemption", "getLatestBlockhash", "getFeeForMessage", "getSlot",
                    "simulateTransaction", "sendTransaction", "getSignatureStatuses"}

  /** A request body: something that names no RPC method, such as a batch, or a call. */
  datatype Body = Unreadable | Call(rpc: string)

  predicate Permitted(url: string, http: string, body: Body) {
    (url == RPC_URL || url == RPC_URL + "/") && http == "POST" && body.Call? && body.rpc in ALLOWED
  }

  /** Everything queued names an RPC method of the list. */
  predicate Known(requests: seq<string>) {
    forall i :: 0 <= i < |requests| ==> requests[i] in ALLOWED
  }

  lemma PermittedUrls(url: string)
    ensures url == RPC_URL || url == RPC_URL + "/" <==>
              url in {"https://api.devnet.solana.com", "https://api.devnet.solana.com/"}
  {
    assert RPC_URL + "/" == "https://api.devnet.solana.com/";
  }

  /** All transports from index `base` on are for this request. */
  predicate Own(log: seq<Transport>, base: nat, request: nat) {
    forall i :: base <= i < |log| ==> log[i].request == request
  }

  function DelayOf(retryAfter: RetryAfter): int {
    match retryAfter
    case Absent => 5_000
    case Millis(ms) => ms
    case Malformed => -1
  }

  /** Half a second at least. */
  function PauseOf(delay: int): int {
    if delay < SPACING then SPACING else delay
  }

  /** Exactly when another attempt follows a reply: a throttled read, at most twice, with a bounded delay in time. */
  predicate Retryable(reply: Reply, rpc: string, attempt: nat, now: int, deadline: int) {
    && Throttled(reply) && IsRead(rpc) && attempt < 2
    && 0 <= DelayOf(reply.retryAfter) <= 15_000 && now + PauseOf(DelayOf(reply.retryAfter)) < deadline
  }

  /**
   * A retry in the request's own terms: HTTP 429 to a read on the first or second try, and a delay of at most
   * fifteen seconds, five if none is asked for, that ends before the deadline as half a second does.
   */
  lemma RetryableIff(status: int, retryAfter: RetryAfter, rpc: string, attempt: nat, now: int, deadline: int)
    ensures Retryable(Failure(status, retryAfter), rpc, attempt, now, deadline) <==>
              && status == 429 && rpc != "sendTransaction" && attempt <= 1 && now + 500 < deadline
              && match retryAfter
                 case Absent => now + 5_000 < deadline
                 case Millis(ms) => 0 <= ms <= 15_000 && now + ms < deadline
                 case Malformed => false
  {
  }

  predicate Succeeded(log: seq<Transport>, base: nat, request: nat) {
    exists i :: base <= i < |log| && log[i].request == request && log[i].reply == Success(true)
  }

  /** A served request was answered exactly when a transport of it succeeded in full. */
  predicate Honest(log: seq<Transport>, verdicts: seq<Verdict>) {
    forall k :: 0 <= k < |verdicts| ==> (verdicts[k] == Answered <==> Succeeded(log, 0, k))
  }

  lemma HonestNext(log: seq<Transport>, verdicts: seq<Verdict>, later: seq<Transport>, verdict: Verdict)
    requires Honest(log, verdicts) && log <= later && Own(later, |log|, |verdicts|)
    requires forall i :: 0 <= i < |log| ==> log[i].request < |verdicts|
    requires verdict == Answered <==> Succeeded(later, |log|, |verdicts|)
    ensures Honest(later, verdicts + [verdict])
  {
    forall k | 0 <= k <= |verdicts|
      ensures (verdicts + [verdict])[k] == Answered <==> Succeeded(later, 0, k)
    {
      SucceededNext(log, later, |verdicts|, k);
    }
  }

  lemma SucceededNext(log: seq<Transport>, later: seq<Transport>, request: nat, k: nat)
    requires log <= later && Own(later, |log|, request) && k <= request
    requires forall i :: 0 <= i < |log| ==> log[i].request < request
    ensures Succeeded(later, 0, k) <==> if k < request then Succeeded(log, 0, k) else Succeeded(later, |log|, k)
  {
    if Succeeded(later, 0, k) {
      var i :| 0 <= i < |later| && later[i].request == k && later[i].reply == Success(true);
      assert i < |log| ==> log[i] == later[i];
    }
    if Succeeded(log, 0, k) {
      var i :| 0 <= i < |log| && log[i].request == k && log[i].reply == Success(true);
      assert later[i] == log[i];
    }
  }

  /** All but the last transport of a request were throttled, so only the last can have succeeded. */
  lemma LastSucceeds(log: seq<Transport>, base: nat, request: nat)
    requires Own(log, base, request) && forall i :: base <= i < |log| - 1 ==> Throttled(log[i].reply)
    ensures Succeeded(log, base, request) <==> |log| > base && log[|log| - 1].reply == Success(true)
  {
  }

  lemma {:induction false} BehindAll(log: seq<Transport>, requests: seq<string>, deadline: int, served: nat)
    requires Paced(log, requests, deadline) && Behind(log, served)
    ensures forall i :: 0 <= i < |log| ==> log[i].request < served
  {
    forall i | 0 <= i < |log| ensures log[i].request < served {
      Spread(log, requests, deadline, i, |log| - 1);
    }
  }

  class Fetcher {
    const deadline: int
    var now: int
    var count: nat
    var lastStart: int  // meaningful once something was transported
    var requests: seq<string>
    var served: nat
    var verdicts: seq<Verdict>
    var log: seq<Transport>

    ghost predicate Valid()
      reads this
    {
      && Paced(log, requests, deadline) && Known(requests) && served <= |requests| && |verdicts| == served
      && |log| <= count && (log != [] ==> lastStart == log[|log| - 1].at <= now)
    }

    constructor (start: int, budget: nat)
      ensures Valid() && deadline == start + budget && now == start && requests == [] && log == [] && verdicts == []
    {
      deadline, now, count, lastStart, served := start + budget, start, 0, 0, 0;
      requests, verdicts, log := [], [], [];
    }

    /** A request for another endpoint, HTTP method or RPC method is refused before it is queued. */
    method Fetch(url: string, http: string, body: Body) returns (queued: bool)
      requires Valid()
      modifies this`requests
      ensures Valid() && queued == Permitted(url, http, body)
      ensures requests == old(requests) + (if queued then [body.rpc] else [])
      ensures queued <==>
                && url in {"https://api.devnet.solana.com", "https://api.devnet.solana.com/"} && http == "POST"
                && body.Call? && body.rpc in ALLOWED
    {
      PermittedUrls(url);
      if url != RPC_URL && url != RPC_URL + "/" { return false; }
      if http != "POST" || body.Unreadable? || body.rpc !in ALLOWED { return false; }
      MoreRequests(log, requests, requests + [body.rpc], deadline);
      requests := requests + [body.rpc];
      queued := true;
    }

    /** Callers ask for further requests. */
    method Arrive(calls: seq<(string, string, Body)>, attempt: nat)
      requires Valid()
      modifies this`requests
      ensures Valid() && old(requests) <= requests
      ensures Trying(log, old(requests), served, attempt) ==> Trying(log, requests, served, attempt)
    {
      for i := 0 to |calls|
        invariant Valid() && old(requests) <= requests
      {
        var _ := Fetch(calls[i].0, calls[i].1, calls[i].2);
      }
      if Trying(log, old(requests), served, attempt) { StillTrying(log, old(requests), requests, served, attempt); }
    }

    /** Time passes, at least `ms` of it, and requests may arrive. */
    method Wait(ms: int, attempt: nat)
      requires Valid() && 0 <= ms
      modifies this`now, this`requests
      ensures Valid() && now >= old(now) + ms && old(requests) <= requests
      ensures Trying(log, old(requests), served, attempt) ==> Trying(log, requests, served, attempt)
    {
      var late: nat, calls: seq<(string, string, Body)> := *, *;
      now := now + ms + late;
      Arrive(calls, attempt);
    }

    /** No further physical request is possible: the count is exceeded or the deadline too close. */
    predicate UsedUp()
      reads this`count, this`now
    {
      count > MAX_COUNT || now + SPACING >= deadline
    }

    /** Sleeps until half a second after the last start, if the deadline leaves room for that. */
    method Pace(attempt: nat) returns (paced: bool)
      requires Valid() && Trying(log, requests, served, attempt)
      modifies this`now, this`requests
      ensures Valid() && now >= old(now) && old(requests) <= requests && Trying(log, requests, served, attempt)
      ensures paced && log != [] ==> now >= lastStart + SPACING
      ensures !paced ==> now + SPACING >= deadline
      ensures paced <==> old(now) < deadline && (log != [] ==> lastStart + 500 < deadline)
    {
      var spacing := if log != [] && lastStart + SPACING > now then lastStart + SPACING - now else 0;
      paced := now + spacing < deadline;
      if paced { Wait(spacing, attempt); }
    }

    /** The spacing, count and deadline checks before a physical request. */
    method Admit(attempt: nat) returns (admitted: bool)
      requires Valid() && Trying(log, requests, served, attempt)
      modifies this`now, this`requests, this`count
      ensures Valid() && now >= old(now) && old(requests) <= requests && Trying(log, requests, served, attempt)
      ensures admitted ==>
                && |log| < count <= MAX_COUNT && now < deadline
                && (log != [] ==> now >= lastStart + SPACING)
      ensures !admitted ==> UsedUp()
      ensures !admitted ==> old(count) >= 600 || now + 500 >= deadline
      ensures admitted ==> count == old(count) + 1 <= 600
    {
      admitted := Pace(attempt);
      if admitted {
        count := count + 1;
        admitted := count <= MAX_COUNT && now < deadline;
      }
    }

    /** One physical request starts. */
    method Start(attempt: nat, reply: Reply)
      requires Valid() && Trying(log, requests, served, attempt) && attempt < ATTEMPTS
      requires |log| < count <= MAX_COUNT && now < deadline && (log != [] ==> now >= lastStart + SPACING)
      modifies this`lastStart, this`log
      ensures Valid() && log == old(log) + [Transport(served, now, reply)] && Behind(log, served + 1)
      ensures Throttled(reply) && IsRead(requests[served]) ==> Trying(log, requests, served, attempt + 1)
    {
      lastStart := now;
      PacedStep(log, requests, deadline, Transport(served, now, reply), attempt);
      TryingIsBehind(log, requests, served, attempt);
      log := log + [Transport(served, now, reply)];
    }

    /** One physical request: the reply may never come, the clock runs and requests arrive while it is awaited. */
    method Transmit(attempt: nat) returns (reply: Reply)
      requires Valid() && Trying(log, requests, served, attempt) && attempt < ATTEMPTS
      requires |log| < count <= MAX_COUNT && now < deadline && (log != [] ==> now >= lastStart + SPACING)
      modifies this`now, this`requests, this`lastStart, this`log
      ensures Valid() && now >= old(now) && old(requests) <= requests && served < |old(requests)|
      ensures log == old(log) + [Transport(served, old(now), reply)] && Behind(log, served + 1)
      ensures Throttled(reply) && IsRead(requests[served]) ==> Trying(log, requests, served, attempt + 1)
    {
      reply := *;
      Start(attempt, reply);
      Wait(0, attempt + 1);
    }

    /** What follows a failed response: at most two retries of a read, after an explicit HTTP 429 only. */
    method Retry(status: int, retryAfter: RetryAfter, attempt: nat) returns (again: bool)
      requires Valid() && served < |requests|
      requires status == 429 && IsRead(requests[served]) ==> Trying(log, requests, served, attempt + 1)
      modifies this`now, this`requests
      ensures Valid() && now >= old(now) && old(requests) <= requests
      ensures again <==> Retryable(Failure(status, retryAfter), old(requests)[served], attempt, old(now), deadline)
      ensures again ==> Trying(log, requests, served, attempt + 1) && now >= old(now) + PauseOf(DelayOf(retryAfter))
    {
      if !(status == 429 && IsRead(requests[served]) && attempt < 2) { return false; }
      var delay := DelayOf(retryAfter);
      if delay < 0 || delay > 15_000 || now + PauseOf(delay) >= deadline { return false; }
      Wait(PauseOf(delay), attempt + 1);
      again := true;
    }

    /** One turn of the retry loop: nothing was transported, or one request was, and its reply decides. */
    method TryOnce(attempt: nat) returns (next: Next, ghost repliedAt: int)
      requires Valid() && Trying(log, requests, served, attempt) && attempt < ATTEMPTS
      modifies this`now, this`requests, this`count, this`lastStart, this`log
      ensures Valid() && old(requests) <= requests
      ensures old(log) <= log && Own(log, |old(log)|, served) && Behind(log, served + 1)
      ensures |log| == |old(log)| ==> next == Stop(Refused) && UsedUp()
      ensures |log| > |old(log)| ==>
                && |log| == |old(log)| + 1 && old(now) <= repliedAt <= now
                && (next == Stop(Answered) <==> log[|log| - 1].reply == Success(true))
                && (next == Again <==> Retryable(log[|log| - 1].reply, requests[served], attempt, repliedAt, deadline))
      ensures next == Again ==> Trying(log, requests, served, attempt + 1)
    {
      TryingIsBehind(log, requests, served, attempt);
      repliedAt := now;
      var admitted := Admit(attempt);
      if !admitted { return Stop(Refused), repliedAt; }
      var reply := Transmit(attempt);
      repliedAt := now;
      next := Follow(reply, attempt);
    }

    /** What a reply leads to: an answer, a refusal or another turn. */
    method Follow(reply: Reply, attempt: nat) returns (next: Next)
      requires Valid() && served < |requests|
      requires Throttled(reply) && IsRead(requests[served]) ==> Trying(log, requests, served, attempt + 1)
      modifies this`now, this`requests
      ensures Valid() && now >= old(now) && old(requests) <= requests
      ensures next == Again <==> Retryable(reply, old(requests)[served], attempt, old(now), deadline)
      ensures next == Again ==> Trying(log, requests, served, attempt + 1)
      ensures next == Stop(Answered) <==> reply == Success(true)
    {
      if reply.Failure? {
        var again := Retry(reply.status, reply.retryAfter, attempt);
        next := if again then Again else Stop(Refused);
      } else {
        next := Stop(if reply == Success(true) then Answered else Refused);
      }
    }

    /**
     * One queued request: up to three physical ones, all its own and all but the last throttled. It is answered
     * exactly when the last one succeeded in full, and refused only when count or time are used up or after a
     * reply that is not to be retried.
     */
    method Perform() returns (verdict: Verdict, ghost repliedAt: int)
      requires Valid() && served < |requests| && Behind(log, served)
      modifies this`now, this`requests, this`count, this`lastStart, this`log
      ensures Valid() && old(requests) <= requests
      ensures old(log) <= log && Own(log, |old(log)|, served) && Behind(log, served + 1)
      ensures |log| <= |old(log)| + ATTEMPTS && forall i :: |old(log)| <= i < |log| - 1 ==> Throttled(log[i].reply)
      ensures verdict == Answered <==> |log| > |old(log)| && log[|log| - 1].reply == Success(true)
      ensures verdict == Refused ==>
                || count > 600 || now + 500 >= deadline
                || (|log| > |old(log)| && var made := |log| - |old(log)|;
                    !Retryable(log[|log| - 1].reply, requests[served], made - 1, repliedAt, deadline))
    {
      repliedAt := now;
      for attempt := 0 to ATTEMPTS
        invariant Valid() && old(requests) <= requests
        invariant old(log) <= log && Own(log, |old(log)|, served) && Behind(log, served + 1)
        invariant Trying(log, requests, served, attempt) && |log| == |old(log)| + attempt
      {
        var next: Next;
        next, repliedAt := TryOnce(attempt);
        if next.Stop? { return next.verdict, repliedAt; }
      }
      verdict := Refused;
    }

    /** Performs the request at the head of the queue; a refusal settles it like an answer does. */
    method Serve()
      requires Valid() && Behind(log, served) && Honest(log, verdicts) && served < |requests|
      modifies this
      ensures Valid() && Behind(log, served) && Honest(log, verdicts)
      ensures old(log) <= log && Own(log, |old(log)|, old(served)) && old(requests) <= requests
      ensures served == old(served) + 1 && old(verdicts) <= verdicts
    {
      BehindAll(log, requests, deadline, served);
      var verdict, _ := Perform();
      LastSucceeds(log, |old(log)|, served);
      HonestNext(old(log), verdicts, log, verdict);
      verdicts := verdicts + [verdict];
      served := served + 1;
    }

    /**
     * The queue: each request is performed only after the one before it has settled, whatever its outcome, so
     * the requests that wait are served in order up to the given number.
     */
    method Drain(limit: nat)
      requires Valid() && Behind(log, served) && Honest(log, verdicts)
      modifies this
      ensures Valid() && Behind(log, served) && Honest(log, verdicts)
      ensures old(log) <= log && old(requests) <= requests && old(verdicts) <= verdicts
      ensures old(served) <= served <= old(served) + limit
      ensures served == old(served) + limit || served == |requests| >= |old(requests)|
      ensures forall i :: |old(log)| <= i < |log| ==> old(served) <= log[i].request < served
    {
      var n := 0;
      while n < limit && served < |requests|
        invariant Valid() && Behind(log, served) && Honest(log, verdicts)
        invariant old(log) <= log && old(requests) <= requests && old(verdicts) <= verdicts
        invariant n <= limit && served == old(served) + n
        invariant forall i :: |old(log)| <= i < |log| ==> old(served) <= log[i].request < served
      {
        Serve();
        n := n + 1;
      }
    }

    /** Whatever was queued and whatever came back, a broadcast was transported at most once. */
    lemma NeverRebroadcast(i: nat, j: nat)
      requires Valid() && i < j < |log|
      ensures log[i].request < |requests|
      ensures requests[log[i].request] == "sendTransaction" ==> log[j].request > log[i].request
    {
      assert Entry(log, requests, deadline, i);
      Spread(log, requests, deadline, i, j);
      if log[j].request == log[i].request { AtMostOnce(log, requests, deadline, i, j); }
    }

    /** Everything transported started before the deadline, is one of at most 600 and calls an allowed method. */
    lemma WithinBudget(i: nat)
      requires Valid() && i < |log|
      ensures |log| <= 600 && log[i].at < deadline
      ensures log[i].request < |requests| && requests[log[i].request] in ALLOWED
    {
      assert Entry(log, requests, deadline, i);
    }
  }
}
