/** The three retry loops. What the remote side would answer to each attempt is given as a
    function from the attempt's number to its answer. */
module Retries {
  import opened Common
  import opened ArmPool

  // ---- BatchPutMachine requests ----

  const BATCH_ATTEMPTS: nat := 5
  const THROTTLED := 429

  datatype BatchError = TooManyThrottles | Rejected(status: int) | ChunkTooLarge

  function Pow2(k: nat): nat {
    if k == 0 then 1 else 2 * Pow2(k - 1)
  }

  /** The first attempt at or after `k` that is not throttled, or `BATCH_ATTEMPTS`. */
  function Decisive(status: nat -> int, k: nat): (d: nat)
    requires k <= BATCH_ATTEMPTS
    ensures k <= d <= BATCH_ATTEMPTS
    ensures forall j :: k <= j < d ==> status(j) == THROTTLED
    ensures d < BATCH_ATTEMPTS ==> status(d) != THROTTLED
    decreases BATCH_ATTEMPTS - k
  {
    if k == BATCH_ATTEMPTS || status(k) != THROTTLED then k else Decisive(status, k + 1)
  }

  /** A batch request lands exactly when its first unthrottled answer is a success. */
  predicate Lands(status: nat -> int) {
    var d := Decisive(status, 0);
    d < BATCH_ATTEMPTS && Accepts(true, status(d))
  }

  /** The attempts of one request, as the pool's history has them. */
  ghost predicate Tries(tries: seq<Event>, put: Put, status: nat -> int) {
    forall i :: 0 <= i < |tries| ==>
      tries[i].MachinesPut? && tries[i].put == put && tries[i].batch && tries[i].status == status(i)
  }

  /** What some attempts have requested and achieved. */
  ghost predicate Tried(tries: seq<Event>, put: Put, landed: bool) {
    && OnlyPuts(tries, |Machines(put)|)
    && Targeted(tries) == (if tries == [] then {} else NamesIn(put))
    && Landed(tries) == if landed then NamesIn(put) else {}
  }

  lemma TriedExtends(tries: seq<Event>, put: Put, e: Event)
    requires Tried(tries, put, false) && e.MachinesPut? && e.put == put
    ensures Tried(tries + [e], put, Accepts(e.batch, e.status))
  {
    PutsExtend(tries, e, |Machines(put)|);
  }

  /** One more attempt, after `tries` have failed. */
  method TryOnce(pool: Pool, put: Put, status: nat -> int, k: nat, ghost w: World, ghost h: seq<Event>,
                 ghost tries: seq<Event>)
    returns (answer: int, ghost more: seq<Event>)
    requires pool.history == h + tries && Chronicle(w, tries, pool.world)
    requires |tries| == k && Tries(tries, put, status) && Tried(tries, put, false)
    modifies pool
    ensures pool.history == h + more && Chronicle(w, more, pool.world)
    ensures |more| == k + 1 && Tries(more, put, status) && answer == status(k)
    ensures Tried(more, put, Accepts(true, answer))
  {
    ghost var before := pool.world;
    answer := pool.PutMachines(put, true, status(k));
    ghost var e := MachinesPut(put, true, answer, pool.world);
    ChronicleNext(w, tries, before, e);
    TriedExtends(tries, put, e);
    Associate(h, tries, [e]);
    more := tries + [e];
  }

  /** What a request comes to, in terms of the answers: attempt `d` decides if the ones before it were all
      throttled and it is the fifth or is not. */
  lemma BatchRequestMeans(status: nat -> int, d: nat)
    requires d <= 4 && (forall i :: 0 <= i < d ==> status(i) == 429) && (d == 4 || status(d) != 429)
    ensures Min(Decisive(status, 0) + 1, BATCH_ATTEMPTS) == d + 1
    ensures Lands(status) <==> status(d) in {200, 201, 202, 204}
    ensures Decisive(status, 0) == BATCH_ATTEMPTS <==> d == 4 && status(4) == 429
    ensures Pow2(d) - 1 == [0, 1, 3, 7, 15][d]
  {
    assert Pow2(1) == 2 && Pow2(2) == 4 && Pow2(3) == 8;
  }

  /** `_make_batch_request`; sleeps are in seconds. */
  method MakeBatchRequest(pool: Pool, put: Put, status: nat -> int)
    returns (r: Result<(), BatchError>, slept: nat, ghost tries: seq<Event>)
    modifies pool
    ensures pool.history == old(pool.history) + tries && Chronicle(old(pool.world), tries, pool.world)
    ensures var d := Decisive(status, 0);
      && r == (if d == BATCH_ATTEMPTS then Err(TooManyThrottles)
               else if Accepts(true, status(d)) then Ok(()) else Err(Rejected(status(d))))
      && |tries| == Min(d + 1, BATCH_ATTEMPTS)
      && slept == Pow2(|tries| - 1) - 1
    ensures r.Ok? <==> Lands(status)
    ensures Tries(tries, put, status) && Tried(tries, put, r.Ok?)
    ensures 1 <= |tries| <= 5 && (r.Ok? <==> status(|tries| - 1) in {200, 201, 202, 204})
  {
    var backoff, attempts := 1, 0;
    slept, tries := 0, [];
    ghost var w, h := pool.world, pool.history;
    while attempts < BATCH_ATTEMPTS
      invariant |tries| == attempts <= BATCH_ATTEMPTS && Decisive(status, 0) == Decisive(status, attempts)
      invariant attempts < BATCH_ATTEMPTS ==> backoff == Pow2(attempts) && slept == backoff - 1
      invariant attempts == BATCH_ATTEMPTS ==> slept == Pow2(attempts - 1) - 1
      invariant pool.history == h + tries && Chronicle(w, tries, pool.world)
      invariant Tries(tries, put, status) && Tried(tries, put, false)
    {
      var answer;
      answer, tries := TryOnce(pool, put, status, attempts, w, h, tries);
      attempts := attempts + 1;
      if Accepts(true, answer) {
        return Ok(()), slept, tries;
      }
      if answer != THROTTLED {
        return Err(Rejected(answer)), slept, tries;
      }
      if attempts == BATCH_ATTEMPTS {
        break;
      }
      slept := slept + backoff;
      backoff := backoff * 2;
    }
    r := Err(TooManyThrottles);
  }

  // ---- execute_with_retries ----

  datatype Retried<+T, +E> = Returned(value: T) | Raised(error: E) | NegativeSleep | FellThrough

  /** The first call at or after `k` that returns, or the last one allowed. */
  function FirstReturn<T, E>(call: nat -> Result<T, E>, k: nat, maxRetries: nat): (d: nat)
    requires k <= maxRetries
    ensures k <= d <= maxRetries
    ensures forall j :: k <= j < d ==> call(j).Err?
    ensures d < maxRetries ==> call(d).Ok?
    decreases maxRetries - k
  {
    if k == maxRetries || call(k).Ok? then k else FirstReturn(call, k + 1, maxRetries)
  }

  function Outcome<T, E>(r: Result<T, E>): Retried<T, E> {
    match r
    case Ok(value) => Returned(value)
    case Err(error) => Raised(error)
  }

  lemma TriangularStep(b: int, k: nat)
    ensures b * (k * (k + 1) / 2) + b * (k + 1) == b * ((k + 1) * (k + 2) / 2)
  {
    assert (k + 1) * (k + 2) == k * (k + 1) + 2 * (k + 1);
    assert b * (k * (k + 1) / 2) + b * (k + 1) == b * (k * (k + 1) / 2 + (k + 1));
  }

  /** `execute_with_retries`. The trailing `return None` is reached only when no call is allowed. */
  method ExecuteWithRetries<T, E>(call: nat -> Result<T, E>, maxRetries: int, backoffTime: int)
    returns (r: Retried<T, E>, calls: nat, slept: int)
    ensures maxRetries < 0 <==> r == FellThrough
    ensures maxRetries < 0 ==> calls == 0 && slept == 0
    ensures maxRetries >= 0 && (backoffTime >= 0 || call(0).Ok? || maxRetries == 0) ==>
      var d := FirstReturn(call, 0, maxRetries);
      r == Outcome(call(d)) && calls == d + 1 && slept == backoffTime * (d * (d + 1) / 2)
    ensures maxRetries > 0 && backoffTime < 0 && call(0).Err? ==> r == NegativeSleep && calls == 1
    ensures r.Returned? ==> calls > 0 && call(calls - 1) == Ok(r.value)
    ensures r.Raised? ==> calls == maxRetries + 1 > 0 && call(calls - 1) == Err(r.error)
  {
    var retryCount := 0;
    calls, slept := 0, 0;
    while retryCount <= maxRetries
      invariant calls == retryCount >= 0 && slept == backoffTime * (retryCount * (retryCount + 1) / 2)
      invariant (retryCount == 0 ==> slept == 0) && (maxRetries < 0 ==> retryCount == 0)
      invariant retryCount > 0 ==> backoffTime >= 0 && call(0).Err?
      invariant maxRetries >= 0 ==>
        retryCount <= maxRetries && FirstReturn(call, 0, maxRetries) == FirstReturn(call, retryCount, maxRetries)
      decreases maxRetries - retryCount
    {
      calls := calls + 1;
      var answer := call(retryCount);
      if answer.Ok? {
        return Returned(answer.value), calls, slept;
      }
      if retryCount < maxRetries {
        TriangularStep(backoffTime, retryCount);
        retryCount := retryCount + 1;
        var sleepTime := backoffTime * retryCount;
        if sleepTime < 0 {
          return NegativeSleep, calls, slept;
        }
        slept := slept + sleepTime;
      } else {
        return Raised(answer.error), calls, slept;
      }
    }
    r := FellThrough;
  }

  // ---- begin_create_or_update_with_retry ----

  /** `Conflict` is an HttpResponseError whose text names OperationNotAllowed or EtagMismatch. */
  datatype ArmError = Conflict | OtherError

  /** One attempt: ARM refuses the call, or starts an operation that is done after some number of
      polls (`None`: never) and then yields its result. */
  datatype ArmAttempt = Refused(error: ArmError) | Started(doneAfter: Option<nat>, result: Result<(), ArmError>)

  datatype ArmOutcome = Completed | ArmFailed(error: ArmError) | TimedOut | SleepRaised | NeverReturns

  /** Whether an operation that is never done is given up at all: with a zero interval, the elapsed
      time never reaches a positive timeout. */
  predicate GivesUp(pollInterval: int, timeout: int) {
    pollInterval != 0 || timeout <= 0
  }

  /** The number of sleeps after which an unfinished operation is given up. */
  function PatienceOf(pollInterval: int, timeout: int): nat {
    if pollInterval > 0 then Max(1, CeilDiv(timeout, pollInterval)) else 1
  }

  /** The attempt does not poll forever. */
  predicate Ends(a: ArmAttempt, pollInterval: int, timeout: int) {
    a.Started? && a.doneAfter.None? ==> GivesUp(pollInterval, timeout)
  }

  function Finished(result: Result<(), ArmError>): ArmOutcome {
    if result.Ok? then Completed else ArmFailed(result.error)
  }

  /** The attempt is given up before it is done. */
  predicate Abandoned(done: Option<nat>, pollInterval: int, timeout: int) {
    GivesUp(pollInterval, timeout) && (done.None? || done.value >= PatienceOf(pollInterval, timeout))
  }

  function AttemptOutcome(a: ArmAttempt, pollInterval: int, timeout: int): ArmOutcome {
    match a
    case Refused(error) => ArmFailed(error)
    case Started(done, result) =>
      if done == Some(0) then Finished(result)
      else if pollInterval < 0 then SleepRaised
      else if !Ends(a, pollInterval, timeout) then NeverReturns
      else if Abandoned(done, pollInterval, timeout) then TimedOut
      else Finished(result)
  }

  /** The number of sleeps an attempt takes. */
  function AttemptSleeps(a: ArmAttempt, pollInterval: int, timeout: int): (n: nat)
    ensures GivesUp(pollInterval, timeout) ==> n <= PatienceOf(pollInterval, timeout)
  {
    if a.Refused? || pollInterval < 0 then 0
    else if Abandoned(a.doneAfter, pollInterval, timeout) then PatienceOf(pollInterval, timeout)
    else if a.doneAfter.Some? then a.doneAfter.value
    else 0
  }

  /** The operation is done before the elapsed time reaches the timeout: at once, or while every sum of
      intervals so far is below it. */
  predicate InTime(done: Option<nat>, pollInterval: int, timeout: int) {
    done.Some? && (done.value == 0 || (pollInterval >= 0 && done.value * pollInterval < timeout))
  }

  /** What an attempt comes to, in terms of elapsed time. */
  lemma AttemptMeans(a: ArmAttempt, pollInterval: int, timeout: int)
    ensures a.Refused? ==> AttemptOutcome(a, pollInterval, timeout) == ArmFailed(a.error)
    ensures a.Started? && InTime(a.doneAfter, pollInterval, timeout) ==>
      && AttemptOutcome(a, pollInterval, timeout) == (if a.result.Ok? then Completed else ArmFailed(a.result.error))
      && AttemptSleeps(a, pollInterval, timeout) == a.doneAfter.value
    ensures a.Started? && !InTime(a.doneAfter, pollInterval, timeout) ==>
      AttemptOutcome(a, pollInterval, timeout) ==
      if pollInterval < 0 then SleepRaised else if pollInterval == 0 && timeout > 0 then NeverReturns else TimedOut
    ensures AttemptOutcome(a, pollInterval, timeout) == TimedOut ==>
      var sleeps := AttemptSleeps(a, pollInterval, timeout);
      sleeps >= 1 && sleeps * pollInterval >= timeout && (sleeps == 1 || (sleeps - 1) * pollInterval < timeout)
  {
    if a.Started? && pollInterval >= 0 && GivesUp(pollInterval, timeout) {
      var patience := PatienceOf(pollInterval, timeout);
      PatienceReached(patience, pollInterval, timeout);
      if patience > 1 {
        PatienceReached(patience - 1, pollInterval, timeout);
      }
      if a.doneAfter.Some? && 0 < a.doneAfter.value < patience {
        PatienceReached(a.doneAfter.value, pollInterval, timeout);
      } else if a.doneAfter.Some? && a.doneAfter.value >= patience {
        Scale(pollInterval, patience, a.doneAfter.value);
      }
    }
  }

  /** Poll one operation until it is done or has been waited for too long. `NeverReturns` stands for a
      call that polls forever. */
  method RunAttempt(a: ArmAttempt, pollInterval: int, timeout: int) returns (r: ArmOutcome, sleeps: nat)
    ensures r == AttemptOutcome(a, pollInterval, timeout) && sleeps == AttemptSleeps(a, pollInterval, timeout)
    ensures a.Started? && InTime(a.doneAfter, pollInterval, timeout) ==>
      r == (if a.result.Ok? then Completed else ArmFailed(a.result.error)) && sleeps == a.doneAfter.value
    ensures a.Started? && !InTime(a.doneAfter, pollInterval, timeout) ==>
      r == if pollInterval < 0 then SleepRaised else if pollInterval == 0 && timeout > 0 then NeverReturns else TimedOut
  {
    AttemptMeans(a, pollInterval, timeout);
    sleeps := 0;
    if a.Refused? {
      return ArmFailed(a.error), 0;
    }
    if !Ends(a, pollInterval, timeout) {
      return NeverReturns, 0;
    }
    var elapsed := 0;
    ghost var patience :=
      if GivesUp(pollInterval, timeout) then PatienceOf(pollInterval, timeout) else a.doneAfter.value + 1;
    while a.doneAfter != Some(sleeps)
      invariant elapsed == sleeps * pollInterval && (pollInterval < 0 ==> sleeps == 0)
      invariant sleeps < patience && (a.doneAfter.Some? ==> sleeps <= a.doneAfter.value)
      decreases patience - sleeps
    {
      if pollInterval < 0 {
        return SleepRaised, sleeps;
      }
      sleeps := sleeps + 1;
      PatienceReached(sleeps, pollInterval, timeout);
      elapsed := elapsed + pollInterval;
      if elapsed >= timeout {
        return TimedOut, sleeps;
      }
    }
    r := if a.result.Ok? then Completed else ArmFailed(a.result.error);
  }

  lemma PatienceReached(sleeps: nat, pollInterval: nat, timeout: int)
    requires 0 < sleeps && (GivesUp(pollInterval, timeout) ==> sleeps <= PatienceOf(pollInterval, timeout))
    ensures (sleeps - 1) * pollInterval + pollInterval == sleeps * pollInterval
    ensures sleeps * pollInterval >= timeout <==>
      GivesUp(pollInterval, timeout) && sleeps == PatienceOf(pollInterval, timeout)
  {
    Distribute(sleeps - 1, pollInterval);
    if pollInterval > 0 {
      var q := CeilDiv(timeout, pollInterval);
      if sleeps < q {
        Scale(pollInterval, sleeps, q - 1);
      } else {
        Scale(pollInterval, q, sleeps);
      }
    }
  }

  /** The first attempt at or after `k` that does not meet a conflict, or the last one allowed. */
  function FirstSettled(attempt: nat -> ArmAttempt, pollInterval: int, timeout: int, k: nat, retries: nat): (d: nat)
    requires k < retries
    ensures k <= d < retries
    ensures forall j :: k <= j < d ==> AttemptOutcome(attempt(j), pollInterval, timeout) == ArmFailed(Conflict)
    ensures d < retries - 1 ==> AttemptOutcome(attempt(d), pollInterval, timeout) != ArmFailed(Conflict)
    decreases retries - k
  {
    if k == retries - 1 || AttemptOutcome(attempt(k), pollInterval, timeout) != ArmFailed(Conflict) then k
    else FirstSettled(attempt, pollInterval, timeout, k + 1, retries)
  }

  /** The seconds spent asleep by the time attempt `n - 1` ends. */
  function Slept(attempt: nat -> ArmAttempt, pollInterval: int, timeout: int, retryWait: int, n: nat): int {
    if n == 0 then 0
    else
      Slept(attempt, pollInterval, timeout, retryWait, n - 1)
      + (if n > 1 then retryWait else 0) + pollInterval * AttemptSleeps(attempt(n - 1), pollInterval, timeout)
  }

  /** The polls of the first `n` attempts. */
  function TotalSleeps(attempt: nat -> ArmAttempt, pollInterval: int, timeout: int, n: nat): nat {
    if n == 0 then 0
    else TotalSleeps(attempt, pollInterval, timeout, n - 1) + AttemptSleeps(attempt(n - 1), pollInterval, timeout)
  }

  /** The time asleep is one interval per poll and one wait between two attempts. */
  lemma {:induction false} SleptIs(attempt: nat -> ArmAttempt, pollInterval: int, timeout: int, retryWait: int, n: nat)
    ensures Slept(attempt, pollInterval, timeout, retryWait, n) ==
      pollInterval * TotalSleeps(attempt, pollInterval, timeout, n) + retryWait * Max(0, n - 1)
  {
    if n > 0 {
      SleptIs(attempt, pollInterval, timeout, retryWait, n - 1);
      var before := TotalSleeps(attempt, pollInterval, timeout, n - 1);
      var more := AttemptSleeps(attempt(n - 1), pollInterval, timeout);
      Spread(pollInterval, before, more);
      if n > 1 {
        Spread(retryWait, n - 2, 1);
      }
    }
  }

  lemma Spread(a: int, x: int, y: int)
    ensures a * (x + y) == a * x + a * y
  {
  }

  /** Each attempt polls for at most `PatienceOf` intervals and one wait separates two attempts. */
  lemma {:induction false} SleptBound(attempt: nat -> ArmAttempt, pollInterval: nat, timeout: int, retryWait: nat,
                                      n: nat)
    ensures Slept(attempt, pollInterval, timeout, retryWait, n) <=
      n * (pollInterval * PatienceOf(pollInterval, timeout)) + Max(0, n - 1) * retryWait
  {
    if n > 0 {
      var patience, sleeps := PatienceOf(pollInterval, timeout), AttemptSleeps(attempt(n - 1), pollInterval, timeout);
      SleptBound(attempt, pollInterval, timeout, retryWait, n - 1);
      if pollInterval > 0 {
        Scale(pollInterval, sleeps, patience);
      }
      Distribute(n - 1, pollInterval * patience);
      if n > 1 {
        Distribute(n - 2, retryWait);
      }
    }
  }

  lemma Distribute(k: nat, a: nat)
    ensures (k + 1) * a == k * a + a
  {
  }

  /** `begin_create_or_update_with_retry`: `Returned(b)` says whether a retry occurred. */
  method BeginWithRetry(attempt: nat -> ArmAttempt, retries: int, retryWait: int, pollInterval: int, timeout: int)
    returns (r: Retried<bool, ArmOutcome>, attempts: nat, slept: int)
    ensures retries <= 0 ==> r == Returned(false) && attempts == 0 && slept == 0
    ensures retries > 0 && (retryWait >= 0 || FirstSettled(attempt, pollInterval, timeout, 0, retries) == 0) ==>
      var d := FirstSettled(attempt, pollInterval, timeout, 0, retries);
      var last := AttemptOutcome(attempt(d), pollInterval, timeout);
      && attempts == d + 1 <= retries
      && r == (if last.Completed? then Returned(d > 0) else Raised(last))
      && slept == Slept(attempt, pollInterval, timeout, retryWait, attempts)
    ensures retries > 0 && retryWait < 0 && FirstSettled(attempt, pollInterval, timeout, 0, retries) > 0 ==>
      r == NegativeSleep && attempts == 1
  {
    attempts, slept := 0, 0;
    var retryOccurred := false;
    while attempts < retries
      invariant slept ==
        Slept(attempt, pollInterval, timeout, retryWait, attempts) + if attempts > 0 then retryWait else 0
      invariant retryOccurred == (attempts > 0) && (retries <= 0 || retryWait < 0 ==> attempts == 0)
      invariant retries > 0 ==>
        && attempts < retries
        && FirstSettled(attempt, pollInterval, timeout, 0, retries) ==
          FirstSettled(attempt, pollInterval, timeout, attempts, retries)
      decreases retries - attempts
    {
      var outcome, sleeps := RunAttempt(attempt(attempts), pollInterval, timeout);
      slept := slept + pollInterval * sleeps;
      attempts := attempts + 1;
      if outcome.Completed? {
        return Returned(retryOccurred), attempts, slept;
      }
      if outcome == ArmFailed(Conflict) && attempts - 1 < retries - 1 {
        retryOccurred := true;
        if retryWait < 0 {
          return NegativeSleep, attempts, slept;
        }
        slept := slept + retryWait;
      } else {
        return Raised(outcome), attempts, slept;
      }
    }
    r := Returned(retryOccurred);
  }
}
