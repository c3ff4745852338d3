/**
 * The shared RPC retry loop and the local broadcast built on it.
 *
 * Clock readings, random jitter, guards, wallet and RPC replies are arbitrary. The loop is written around
 * the one call this project uses it for; nothing in it depends on what an attempt does.
 */
module Retry {
  import opened Results

  const DELAYS: seq<nat> := [2_000, 4_000, 8_000, 16_000, 30_000]
  const ATTEMPTS := |DELAYS| + 1
  const MAX_WAIT: nat := 30_000

  datatype Error = Error(code: nat, transient: bool)

  /** How one attempt ended: a guard may fail before anything is sent. */
  datatype Ending = Accepted(reply: nat) | GuardFailed(error: Error) | SendFailed(error: Error)
  datatype Try = Try(at: int, outcome: Ending)

  datatype Failure =
    | Original(error: Error)
    | Exhausted(attempts: nat, waitedMs: nat, lastError: Error)
    | CallbackThrew

  function Capped(base: nat): nat {
    if base < MAX_WAIT then base else MAX_WAIT
  }

  /** A quarter, rounded half up. */
  function Jitter(wait: nat): nat {
    (wait + 2) / 4
  }

  predicate Jittered(base: nat, ms: nat) {
    Capped(base) - Jitter(Capped(base)) <= ms <= Capped(base) + Jitter(Capped(base))
  }

  /** The jitter is added after the cap, so waits above the cap happen exactly for bases above 24 seconds. */
  lemma JitterExceedsCapIff(base: nat)
    ensures (exists ms: nat :: Jittered(base, ms) && ms > MAX_WAIT) <==> base > 24_000
    ensures forall ms: nat :: Jittered(base, ms) ==> ms <= MAX_WAIT + MAX_WAIT / 4
  {
    if base > 24_000 {
      assert Jittered(base, Capped(base) + Jitter(Capped(base)));
    }
  }

  /** The base wait after failed attempt i + 1. */
  function ScheduledWait(delays: seq<nat>, i: nat): nat {
    if delays == [] then MAX_WAIT else if i < |delays| then delays[i] else delays[|delays| - 1]
  }

  function Sum(waits: seq<nat>): nat {
    if waits == [] then 0 else Sum(waits[..|waits| - 1]) + waits[|waits| - 1]
  }

  function Schedule(delays: seq<nat>, n: nat): nat {
    if n == 0 then 0 else Schedule(delays, n - 1) + Capped(ScheduledWait(delays, n - 1))
  }

  predicate WaitsFollow(delays: seq<nat>, waits: seq<nat>) {
    forall i :: 0 <= i < |waits| ==> Jittered(ScheduledWait(delays, i), waits[i])
  }

  /** The whole backoff lies within a quarter of the schedule used, up to half a millisecond a wait. */
  lemma {:induction false} TotalWaitBounds(delays: seq<nat>, waits: seq<nat>)
    requires WaitsFollow(delays, waits)
    ensures 3 * Schedule(delays, |waits|) - 2 * |waits| <= 4 * Sum(waits) <= 5 * Schedule(delays, |waits|) + 2 * |waits|
  {
    if waits != [] {
      var n := |waits| - 1;
      TotalWaitBounds(delays, waits[..n]);
      assert Jittered(ScheduledWait(delays, n), waits[n]);
    }
  }

  /** With the default delays nothing is lost to rounding: at most 1.25 times the schedule, at most 75 seconds. */
  lemma {:induction false} DefaultWaitBounds(waits: seq<nat>)
    requires WaitsFollow(DELAYS, waits) && |waits| <= |DELAYS|
    ensures 3 * Schedule(DELAYS, |waits|) <= 4 * Sum(waits) <= 5 * Schedule(DELAYS, |waits|)
    ensures Schedule(DELAYS, |waits|) <= 60_000
  {
    ScheduleValues();
    if waits != [] {
      var n := |waits| - 1;
      DefaultWaitBounds(waits[..n]);
      assert Jittered(DELAYS[n], waits[n]) && DELAYS[n] <= MAX_WAIT && DELAYS[n] % 4 == 0;
    }
  }

  lemma ScheduleValues()
    ensures Schedule(DELAYS, 0) == 0 && Schedule(DELAYS, 1) == 2_000 && Schedule(DELAYS, 2) == 6_000
    ensures Schedule(DELAYS, 3) == 14_000 && Schedule(DELAYS, 4) == 30_000 && Schedule(DELAYS, 5) == 60_000
  {
  }

  predicate Failed(t: Try, transient: bool) {
    !t.outcome.Accepted? && t.outcome.error.transient == transient
  }

  /** Every attempt but the last failed transiently, and only the first may start at or after the deadline. */
  predicate Retried(tries: seq<Try>, deadline: Option<int>) {
    && (forall i :: 0 <= i < |tries| - 1 ==> Failed(tries[i], true))
    && (deadline.Some? ==> forall i :: 1 <= i < |tries| ==> tries[i].at < deadline.value)
  }

  lemma WaitAdded(delays: seq<nat>, waits: seq<nat>, ms: nat)
    requires WaitsFollow(delays, waits) && Jittered(ScheduledWait(delays, |waits|), ms)
    ensures WaitsFollow(delays, waits + [ms]) && Sum(waits + [ms]) == Sum(waits) + ms
  {
  }

  /** What the loop notes besides its attempts: each wait, and the clock after each failure and after each wait. */
  datatype Notes = Notes(waits: seq<nat>, checks: seq<int>, wakes: seq<int>)

  predicate Past(deadline: Option<int>, clock: int) {
    deadline.Some? && clock >= deadline.value
  }

  /** The first n failures were each followed by a wait, and the deadline had not passed before or after it. */
  predicate WentOn(notes: Notes, deadline: Option<int>, n: nat) {
    && n <= |notes.waits| && n <= |notes.checks| && n <= |notes.wakes|
    && forall i :: 0 <= i < n ==> !Past(deadline, notes.checks[i]) && !Past(deadline, notes.wakes[i])
  }

  /** The last failure was not followed by a complete wait. */
  predicate StoppedAtOnce(notes: Notes, attempt: nat) {
    |notes.waits| == |notes.wakes| == attempt - 1 && |notes.checks| == attempt
  }

  /** The deadline passed during the wait after the last failure. */
  predicate PassedDuringWait(notes: Notes, attempt: nat, deadline: Option<int>) {
    && attempt > 0 && |notes.waits| == |notes.wakes| == |notes.checks| == attempt
    && !Past(deadline, notes.checks[attempt - 1]) && Past(deadline, notes.wakes[attempt - 1])
  }

  /**
   * Why the loop gives up after failed attempt number `attempt`. The reported count is one more than the
   * number of waits, which overstates the attempts by one when the deadline passed during the last wait.
   */
  predicate GivesUp(error: Error, attempt: nat, notes: Notes, limit: int, deadline: Option<int>, failure: Failure) {
    match failure
    case Original(e) => e == error && !error.transient && StoppedAtOnce(notes, attempt)
    case CallbackThrew => error.transient && StoppedAtOnce(notes, attempt) && attempt < limit
    case Exhausted(attempts, waitedMs, e) =>
      && e == error && error.transient && attempts == |notes.waits| + 1 && waitedMs == Sum(notes.waits)
      && ((StoppedAtOnce(notes, attempt) && attempt > 0
           && (attempt >= limit || Past(deadline, notes.checks[attempt - 1])))
          || (PassedDuringWait(notes, attempt, deadline) && attempt < limit))
  }

  /** What the loop returns for the attempts it made. */
  predicate Reports(tries: seq<Try>, notes: Notes, limit: int, deadline: Option<int>, r: Result<nat, Failure>)
    requires tries != []
  {
    var last := tries[|tries| - 1].outcome;
    && WentOn(notes, deadline, |tries| - 1)
    && if last.Accepted? then r == Ok(last.reply) && |notes.waits| == |tries| - 1
       else r.Err? && GivesUp(last.error, |tries|, notes, limit, deadline, r.error)
  }

  /** A deadline bounds the start of every attempt exactly when it bounds the first one. */
  lemma DeadlineKeptIff(tries: seq<Try>, deadline: int)
    requires Retried(tries, Some(deadline)) && tries != []
    ensures (forall i :: 0 <= i < |tries| ==> tries[i].at < deadline) <==> tries[0].at < deadline
  {
    assert forall i :: 1 <= i < |tries| ==> tries[i].at < deadline;
  }

  /**
   * The reported number of attempts is too high, by one, exactly when the clock read after some wait had passed
   * the deadline, which it then did during the wait that followed the last attempt.
   */
  lemma CountOverstatedIff(tries: seq<Try>, notes: Notes, limit: int, deadline: Option<int>, failure: Failure)
    requires tries != [] && failure.Exhausted? && Reports(tries, notes, limit, deadline, Err(failure))
    ensures |tries| <= failure.attempts <= |tries| + 1
    ensures failure.attempts > |tries| <==> exists i :: 0 <= i < |notes.wakes| && Past(deadline, notes.wakes[i])
    ensures failure.attempts > |tries| ==> |tries| < limit && PassedDuringWait(notes, |tries|, deadline)
  {
    if failure.attempts > |tries| {
      assert Past(deadline, notes.wakes[|tries| - 1]);
    }
  }

  /** A run of the loop with the default delays, of one attempt, on a clock that only moves forward. */
  predicate SingleAttempt(tries: seq<Try>, notes: Notes, deadline: int, failure: Failure) {
    && |tries| == |notes.checks| == 1 && tries[0].at <= notes.checks[0] && |notes.wakes| == |notes.waits| <= 1
    && (|notes.wakes| == 1 ==> notes.wakes[0] >= notes.checks[0] + notes.waits[0])
    && Retried(tries, Some(deadline)) && WaitsFollow(DELAYS, notes.waits)
    && Reports(tries, notes, ATTEMPTS, Some(deadline), Err(failure))
  }

  /** A first attempt after the deadline, and one attempt reported as two. */
  lemma LateStartAndOverstatedCount()
    ensures exists tries: seq<Try>, notes, deadline, failure: Failure ::
              SingleAttempt(tries, notes, deadline, failure) && tries[0].at >= deadline
    ensures exists tries: seq<Try>, notes, deadline, failure: Failure ::
              SingleAttempt(tries, notes, deadline, failure) && failure.Exhausted? && failure.attempts == 2
  {
    var error := Error(429, true);
    assert SingleAttempt([Try(5, SendFailed(error))], Notes([], [6], []), 5, Exhausted(1, 0, error));
    var tries, notes, failure := [Try(0, SendFailed(error))], Notes([2_000], [10], [2_010]), Exhausted(2, 2_000, error);
    assert notes.waits[..0] == [] && Sum(notes.waits) == 2_000;
    assert Jittered(ScheduledWait(DELAYS, 0), notes.waits[0]);
    assert SingleAttempt(tries, notes, 100, failure);
  }
}

module SignAndSend {
  import opened Results
  import opened Retry

  /** What the wallet returned: its raw signature and the serialized transaction. */
  datatype Signed = Signed(signature: seq<nat>, bytes: nat)

  datatype Stop = Refused(error: Error) | InvalidSignature | SendStopped(failure: Failure)

  predicate UsableSignature(signature: seq<nat>) {
    |signature| == 64 && exists i :: 0 <= i < 64 && signature[i] != 0
  }

  predicate Ambiguous(tries: seq<Try>) {
    exists i :: 0 <= i < |tries| && tries[i].outcome.SendFailed? && tries[i].outcome.error.transient
  }

  /** Attempts that got past the guards. */
  function Sends(tries: seq<Try>): nat {
    if tries == [] then 0
    else Sends(tries[..|tries| - 1]) + if tries[|tries| - 1].outcome.GuardFailed? then 0 else 1
  }

  lemma {:induction false} SendsAtMostTries(tries: seq<Try>)
    ensures Sends(tries) <= |tries|
  {
    if tries != [] { SendsAtMostTries(tries[..|tries| - 1]); }
  }

  /** One call of `signAndSendLocal`. */
  class Sender {
    var ambiguousSend: bool
    var tries: seq<Try>
    var notes: Notes  // the waits, and the clock after each failure and each wait; read only when there is a deadline
    var broadcasts: seq<nat>  // the bytes handed to the RPC, in order

    constructor ()
      ensures tries == [] && notes == Notes([], [], []) && broadcasts == [] && !ambiguousSend
    {
      tries, notes, broadcasts, ambiguousSend := [], Notes([], [], []), [], false;
    }

    method JitteredWait(base: nat) returns (ms: nat)
      ensures Jittered(base, ms)
    {
      var delta := Jitter(Capped(base));
      var random: nat :| random <= 2 * delta;
      ms := Capped(base) - delta + random;
    }

    /** Guards, then one broadcast of the signed bytes. */
    method Attempt(at: int, bytes: nat) returns (outcome: Ending)
      modifies this`tries, this`broadcasts, this`ambiguousSend
      ensures tries == old(tries) + [Try(at, outcome)]
      ensures broadcasts == if outcome.GuardFailed? then old(broadcasts) else old(broadcasts) + [bytes]
      ensures ambiguousSend == (old(ambiguousSend) || (outcome.SendFailed? && outcome.error.transient))
    {
      outcome := *;
      if !outcome.GuardFailed? {
        broadcasts := broadcasts + [bytes];
        if outcome.SendFailed? && outcome.error.transient {
          ambiguousSend := true;
        }
      }
      tries := tries + [Try(at, outcome)];
    }

    predicate Consistent(bytes: nat)
      reads this`tries, this`broadcasts, this`ambiguousSend
    {
      && (ambiguousSend <==> Ambiguous(tries))
      && |broadcasts| == Sends(tries)
      && forall i :: 0 <= i < |broadcasts| ==> broadcasts[i] == bytes
    }

    method NextAttempt(at: int, bytes: nat, deadline: Option<int>) returns (outcome: Ending)
      requires Consistent(bytes) && Retried(tries, deadline)
      requires tries != [] ==> Failed(tries[|tries| - 1], true) && !Past(deadline, at)
      modifies this`tries, this`broadcasts, this`ambiguousSend
      ensures Consistent(bytes) && Retried(tries, deadline) && tries == old(tries) + [Try(at, outcome)]
    {
      var before := tries;
      outcome := Attempt(at, bytes);
      assert tries[..|before|] == before;
      assert Ambiguous(tries) <==> Ambiguous(before) || (outcome.SendFailed? && outcome.error.transient) by {
        assert forall i :: 0 <= i < |before| ==> tries[i] == before[i];
        assert tries[|before|].outcome == outcome;
      }
    }

    /** Announces the next wait, which may throw, then sleeps and looks at the clock. */
    method Pause(delays: seq<nat>, waited: nat) returns (waitedMs: nat, now: int, threw: bool)
      requires WaitsFollow(delays, notes.waits) && waited == Sum(notes.waits) && |notes.wakes| == |notes.waits|
      modifies this`notes
      ensures WaitsFollow(delays, notes.waits)
      ensures threw ==> notes == old(notes)
      ensures !threw ==>
                && |notes.waits| == |old(notes.waits)| + 1 && waitedMs == Sum(notes.waits)
                && notes.wakes == old(notes.wakes) + [now] && notes.checks == old(notes.checks)
    {
      var waitMs := JitteredWait(ScheduledWait(delays, |notes.waits|));
      waitedMs := waited + waitMs;
      threw, now := *, *;
      if !threw {
        WaitAdded(delays, notes.waits, waitMs);
        notes := notes.(waits := notes.waits + [waitMs], wakes := notes.wakes + [now]);
      }
    }

    /** What happens after a failed attempt: stop, or wait and go on. */
    method Catch(error: Error, attempt: nat, waited: nat, limit: int, delays: seq<nat>, deadline: Option<int>)
      returns (stop: Option<Failure>, waitedMs: nat, now: int)
      requires WaitsFollow(delays, notes.waits) && waited == Sum(notes.waits) && attempt > 0
      requires WentOn(notes, deadline, attempt - 1)
      requires |notes.waits| == |notes.checks| == |notes.wakes| == attempt - 1
      modifies this`notes
      ensures WaitsFollow(delays, notes.waits) && WentOn(notes, deadline, attempt - 1)
      ensures stop.Some? ==> GivesUp(error, attempt, notes, limit, deadline, stop.value)
      ensures stop.None? ==>
                && error.transient && attempt < limit && waitedMs == Sum(notes.waits)
                && |notes.waits| == |notes.checks| == |notes.wakes| == attempt
                && WentOn(notes, deadline, attempt) && !Past(deadline, now)
    {
      waitedMs, now := waited, *;
      notes := notes.(checks := notes.checks + [now]);
      var isLast := attempt >= limit;
      var pastDeadline := Past(deadline, now);
      if !error.transient { return Some(Original(error)), waitedMs, now; }
      if isLast || pastDeadline { return Some(Exhausted(attempt, waitedMs, error)), waitedMs, now; }
      var threw: bool;
      waitedMs, now, threw := Pause(delays, waitedMs);
      if threw { return Some(CallbackThrew), waitedMs, now; }
      if Past(deadline, now) { return Some(Exhausted(attempt + 1, waitedMs, error)), waitedMs, now; }
      stop := None;
    }

    /** Between two attempts: every attempt so far failed transiently, was waited for, and time is left. */
    predicate Midway(waitedMs: nat, now: int, limit: int, deadline: Option<int>)
      reads this`tries, this`notes
    {
      && Retried(tries, deadline) && WentOn(notes, deadline, |tries|) && waitedMs == Sum(notes.waits)
      && |notes.waits| == |notes.checks| == |notes.wakes| == |tries|
      && (tries != [] ==> |tries| < limit && Failed(tries[|tries| - 1], true) && !Past(deadline, now))
    }

    /** One turn of the loop. */
    method Turn(now: int, bytes: nat, waited: nat, limit: int, delays: seq<nat>, deadline: Option<int>)
      returns (r: Option<Result<nat, Failure>>, waitedMs: nat, later: int)
      requires Consistent(bytes) && WaitsFollow(delays, notes.waits) && Midway(waited, now, limit, deadline)
      modifies this
      ensures Consistent(bytes) && WaitsFollow(delays, notes.waits) && |tries| == |old(tries)| + 1
      ensures Retried(tries, deadline)
      ensures r.Some? ==> Reports(tries, notes, limit, deadline, r.value)
      ensures r.None? ==> Midway(waitedMs, later, limit, deadline)
    {
      var attempt := |tries| + 1;
      var outcome := NextAttempt(now, bytes, deadline);
      if outcome.Accepted? { return Some(Ok(outcome.reply)), waited, now; }
      var stop: Option<Failure>;
      stop, waitedMs, later := Catch(outcome.error, attempt, waited, limit, delays, deadline);
      r := if stop.Some? then Some(Err(stop.value)) else None;
    }

    /** An answer passes on the last reply; a failure has exhausted the attempts or the time, or is not transient. */
    predicate StopsFor(r: Result<nat, Failure>, limit: int, deadline: Option<int>)
      reads this`tries, this`notes
      requires tries != []
    {
      var n := |tries|;
      var last := tries[n - 1].outcome;
      && |notes.checks| >= n - 1 && |notes.wakes| >= n - 1
      && (forall i :: 0 <= i < n - 1 ==> !tries[i].outcome.Accepted? && tries[i].outcome.error.transient)
      && (deadline.Some? ==>
            forall i :: 0 <= i < n - 1 ==> notes.checks[i] < deadline.value && notes.wakes[i] < deadline.value)
      && (last.Accepted? <==> r.Ok?) && (r.Ok? ==> r.value == last.reply)
      && (r.Err? ==>
            match r.error
            case Original(e) => e == last.error && !e.transient
            case CallbackThrew => last.error.transient && n < limit
            case Exhausted(_, waitedMs, e) =>
              && e == last.error && e.transient && waitedMs == Sum(notes.waits)
              && (n >= limit
                  || (deadline.Some? && n <= |notes.checks| && notes.checks[n - 1] >= deadline.value)
                  || (deadline.Some? && n <= |notes.wakes| && notes.wakes[n - 1] >= deadline.value)))
    }

    /** The retry loop: an attempt runs before the deadline is ever looked at. */
    method WithRetry(bytes: nat, limit: int, delays: seq<nat>, deadline: Option<int>) returns (r: Result<nat, Failure>)
      requires tries == [] && notes == Notes([], [], []) && Consistent(bytes)
      modifies this
      ensures Consistent(bytes) && tries != [] && |tries| <= (if limit < 1 then 1 else limit)
      ensures Retried(tries, deadline) && WaitsFollow(delays, notes.waits) && Reports(tries, notes, limit, deadline, r)
      ensures StopsFor(r, limit, deadline)
    {
      var waitedMs: nat := 0;
      var now: int := *;
      while true
        invariant Consistent(bytes) && WaitsFollow(delays, notes.waits) && Midway(waitedMs, now, limit, deadline)
        decreases limit - |tries|
      {
        var done: Option<Result<nat, Failure>>;
        done, waitedMs, now := Turn(now, bytes, waitedMs, limit, delays, deadline);
        if done.Some? { return done.value; }
      }
    }

    /**
     * All broadcasts carry the same signed bytes and number at most six. An error is reported exactly when
     * no attempt was accepted and none was ambiguous; an uncertain send answers with the bytes' own signature.
     */
    method SignAndSendLocal(wallet: Result<Signed, Error>, encode: seq<nat> -> nat) returns (r: Result<nat, Stop>)
      requires tries == [] && notes == Notes([], [], []) && broadcasts == [] && !ambiguousSend
      modifies this
      ensures wallet.Err? ==> r == Err(Refused(wallet.error)) && tries == []
      ensures wallet.Ok? && !UsableSignature(wallet.value.signature) ==> r == Err(InvalidSignature) && tries == []
      ensures tries == [] ==> broadcasts == []
      ensures r == Err(InvalidSignature) <==>
                && wallet.Ok?
                && (|wallet.value.signature| != 64 || forall i :: 0 <= i < 64 ==> wallet.value.signature[i] == 0)
      ensures forall i :: 0 <= i < |broadcasts| ==> wallet.Ok? && broadcasts[i] == wallet.value.bytes
      ensures r.Err? && r.error.SendStopped? && r.error.failure.Exhausted? ==>
                |tries| == 6 && r.error.failure.attempts == 6 && r.error.failure.waitedMs == Sum(notes.waits)
      ensures wallet.Ok? && UsableSignature(wallet.value.signature) ==>
                && 1 <= |tries| <= 6 && Retried(tries, None) && Consistent(wallet.value.bytes)
                && |broadcasts| <= 6 && WaitsFollow(DELAYS, notes.waits)
                && 4 * Sum(notes.waits) <= 5 * Schedule(DELAYS, |notes.waits|)
                && var last := tries[|tries| - 1].outcome;
                   && (r.Err? <==> !last.Accepted? && !Ambiguous(tries))
                   && (r.Ok? ==> r.value == if last.Accepted? then last.reply else encode(wallet.value.signature))
                   && (r.Err? && !last.error.transient ==> r == Err(SendStopped(Original(last.error))))
    {
      if wallet.Err? { return Err(Refused(wallet.error)); }
      var signed := wallet.value;
      if !UsableSignature(signed.signature) { return Err(InvalidSignature); }
      var knownSignature := encode(signed.signature);
      var sent := WithRetry(signed.bytes, ATTEMPTS, DELAYS, None);
      SendsAtMostTries(tries);
      DefaultWaitBounds(notes.waits);
      if sent.Ok? { return Ok(sent.value); }
      if ambiguousSend { return Ok(knownSignature); }
      return Err(SendStopped(sent.error));
    }
  }
}
