/** `call_with_retry`: bounded attempts with a capped backoff, over any stateful operation. */
module ProviderRetry {
  import opened Wrappers
  import opened Arithmetic

  datatype Fault = Fault(retryable: bool)

  datatype Attempts<S, T> = Attempts(state: S, result: Result<T, Fault>, tries: nat, slept: nat)

  const DEFAULT_MAX_RETRIES := 3
  const BACKOFF := [1, 2, 4]

  /** `provider_max_retries`: the limit in 0..10 closest to the configured number, if it is one. */
  function MaxRetries(configured: Option<int>): (limit: nat)
    ensures limit <= 10
    ensures configured.None? ==> limit == DEFAULT_MAX_RETRIES
    ensures configured.Some? ==> forall k: nat :: k <= 10 ==>
              Distance(limit, configured.value) <= Distance(k, configured.value)
  {
    match configured
    case None => DEFAULT_MAX_RETRIES
    case Some(n) => if n < 0 then 0 else if n > 10 then 10 else n
  }

  function Distance(a: int, b: int): int { Max(a - b, b - a) }

  /** Seconds slept after failed attempt number `attempt`, counting from 0. */
  function Delay(attempt: nat): nat {
    BACKOFF[if attempt < 2 then attempt else 2]
  }

  function Retry<S, T>(fn: S -> (S, Result<T, Fault>), s: S, attempt: nat, limit: nat): Attempts<S, T>
    requires attempt <= limit
    decreases limit - attempt
  {
    var (s', r) := fn(s);
    if r.Ok? || !r.error.retryable || attempt == limit then Attempts(s', r, 1, 0)
    else
      var rest := Retry(fn, s', attempt + 1, limit);
      Attempts(rest.state, rest.result, 1 + rest.tries, Delay(attempt) + rest.slept)
  }

  /**
   `states` are the operation's states before its attempts and after the last one: every attempt
   but the last failed in a retryable way, and the last one did not or was the last allowed.
   */
  ghost predicate IsAttemptRun<S, T>(fn: S -> (S, Result<T, Fault>), states: seq<S>, limit: nat) {
    && 2 <= |states| <= limit + 2
    && (forall i :: 0 <= i < |states| - 1 ==> states[i + 1] == fn(states[i]).0)
    && (forall i :: 0 <= i < |states| - 2 ==> IsRetryable(fn(states[i]).1))
    && (IsRetryable(fn(states[|states| - 2]).1) ==> |states| == limit + 2)
  }

  predicate IsRetryable<T>(r: Result<T, Fault>) {
    r.Err? && r.error.retryable
  }

  /**
   Any operation: the call ends with the first answer that is not a retryable fault, or with the
   fault of attempt `limit + 1`; that answer is the result, and only retries are slept for.
   */
  lemma {:induction false} RetryEndsAtFirstFinal<S, T>(fn: S -> (S, Result<T, Fault>), states: seq<S>, attempt: nat,
                                                       limit: nat)
    requires attempt <= limit && IsAttemptRun(fn, states, limit - attempt)
    ensures var out, n := Retry(fn, states[0], attempt, limit), |states| - 1;
            && out.state == states[n] && out.result == fn(states[n - 1]).1
            && out.tries == n && out.slept == Backoff(attempt + n - 1) - Backoff(attempt)
    decreases limit - attempt
  {
    if |states| > 2 {
      assert states[1] == fn(states[0]).0 && IsRetryable(fn(states[0]).1);
      assert forall i :: 0 <= i < |states| - 1 ==> states[1..][i] == states[i + 1];
      RetryEndsAtFirstFinal(fn, states[1..], attempt + 1, limit);
      BackoffStep(attempt);
    } else {
      assert states[1] == fn(states[0]).0;
    }
  }

  /** Every call is such a run. */
  lemma {:induction false} AttemptRunExists<S, T>(fn: S -> (S, Result<T, Fault>), s: S, limit: nat)
    returns (states: seq<S>)
    ensures IsAttemptRun(fn, states, limit) && states[0] == s
  {
    var (s', r) := fn(s);
    if IsRetryable(r) && limit > 0 {
      var rest := AttemptRunExists(fn, s', limit - 1);
      states := [s] + rest;
      assert forall i :: 0 < i < |states| ==> states[i] == rest[i - 1];
    } else {
      states := [s, s'];
    }
  }

  /** A fault that is not retryable ends the call at once. */
  lemma PermanentFaultEndsCall<S, T>(fn: S -> (S, Result<T, Fault>), s: S, limit: nat)
    requires fn(s).1.Err? && !fn(s).1.error.retryable
    ensures Retry(fn, s, 0, limit) == Attempts(fn(s).0, fn(s).1, 1, 0)
  {
    RetryEndsAtFirstFinal(fn, [s, fn(s).0], 0, limit);
  }

  /** A simulated operation that still has `n` throttling failures to give. */
  function Streak(n: int): (int, Result<(), Fault>) {
    if n > 0 then (n - 1, Err(Fault(true))) else (n, Ok(()))
  }

  /** 1 + 2 + 4 + 4 + ... for `r` retries. */
  function Backoff(r: nat): int {
    if r <= 3 then Pow2(r) - 1 else 7 + 4 * (r - 3)
  }

  lemma BackoffStep(r: nat)
    ensures Backoff(r + 1) == Backoff(r) + Delay(r)
  {
    assert Pow2(3) == 8 && Pow2(2) == 4 && Pow2(1) == 2;
  }

  lemma {:induction false} StreakFrom(n: int, attempt: nat, limit: nat)
    requires attempt <= limit
    ensures var out, used := Retry(Streak, n, attempt, limit), Min(Max(n, 0), limit - attempt);
            && (out.result.Ok? <==> n <= limit - attempt)
            && out.tries == used + 1
            && out.state == (if n <= 0 then n else Max(0, n - (limit - attempt) - 1))
            && out.slept == Backoff(attempt + used) - Backoff(attempt)
    decreases limit - attempt
  {
    if n > 0 && attempt < limit {
      StreakFrom(n - 1, attempt + 1, limit);
      BackoffStep(attempt);
    }
  }

  /**
   Against a streak of `n` failures the call succeeds exactly when the retries outlast the
   streak; attempts, remaining streak and total sleep have closed forms.
   */
  lemma RetryClosedForm(n: nat, limit: nat)
    ensures var out, used := Retry(Streak, n, 0, limit), Min(n, limit);
            && (out.result.Ok? <==> n <= limit)
            && out.tries == used + 1
            && out.state == Max(0, n - limit - 1)
            && out.slept == (if used <= 3 then Pow2(used) - 1 else 7 + 4 * (used - 3))
            && (limit <= 10 ==> out.slept <= 35)
  {
    StreakFrom(n, 0, limit);
    var used := Min(n, limit);
    assert Pow2(3) == 8 && Pow2(2) == 4 && Pow2(1) == 2 && Pow2(0) == 1;
    assert used <= 3 ==> used == 0 || used == 1 || used == 2 || used == 3;
  }
}
