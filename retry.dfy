/**
 * The retry loop around a model call, shared by `bench` and
 * `run_agent_function`: at most `max_retries` attempts, an exponential
 * back-off of `2**attempt * base_delay` seconds after each failed attempt but
 * the last, and a policy for the last failure (re-raise it, or leave the loop).
 */
module Retry {

  /** `max_retries` */
  const MaxRetries: nat := 5
  /** `base_delay`, in seconds */
  const BaseDelay: nat := 1

  function Pow2(n: nat): (r: nat)
    ensures r >= 1
  {
    if n == 0 then 1 else 2 * Pow2(n - 1)
  }

  /** The sleep after failed attempt `attempt` (counted from 0). */
  function Delay(attempt: nat): nat {
    Pow2(attempt) * BaseDelay
  }

  /** The sleeps after the first `n` failed attempts. */
  function Schedule(n: nat): (r: seq<nat>)
    ensures |r| == n && forall a :: 0 <= a < n ==> r[a] == Delay(a)
  {
    if n == 0 then [] else Schedule(n - 1) + [Delay(n - 1)]
  }

  function Sum(s: seq<nat>): nat {
    if s == [] then 0 else Sum(s[..|s| - 1]) + s[|s| - 1]
  }

  /** The back-off is geometric: after `n` failures the loop has slept `(2**n - 1) * base_delay` seconds. */
  lemma {:induction false} ScheduleTotal(n: nat)
    ensures Sum(Schedule(n)) == (Pow2(n) - 1) * BaseDelay
  {
    if n > 0 {
      ScheduleTotal(n - 1);
      assert Schedule(n)[..n - 1] == Schedule(n - 1);
    }
  }

  /** The longest wait: four sleeps of 1, 2, 4 and 8 seconds, 15 seconds in all. */
  lemma LongestWait()
    ensures Schedule(MaxRetries - 1) == [1, 2, 4, 8]
    ensures Sum(Schedule(MaxRetries - 1)) == 15
  {
    ScheduleTotal(MaxRetries - 1);
  }

  /** Exceptions a model call can raise: `ClientError` is retried, anything else propagates. */
  datatype ErrorKind = ClientError | OtherError

  /** What one call to the model does. */
  datatype CallOutcome = Answered(content: string) | Raises(kind: ErrorKind)

  /** How the retry loop ends. `GaveUp`: the loop was left with no response. */
  datatype CallResult = Replied(content: string) | Raised(kind: ErrorKind) | GaveUp

  /** What the last failed attempt does: `bench` re-raises, `run_agent_function` breaks. */
  datatype Policy = ReraiseLast | BreakOnLast

  /** The last attempt made from attempt `a` on: attempts continue while the call raises `ClientError`. */
  function LastFrom(script: nat -> CallOutcome, a: nat): (last: nat)
    requires a < MaxRetries
    decreases MaxRetries - a
    ensures a <= last < MaxRetries
    ensures forall b :: a <= b < last ==> script(b) == Raises(ClientError)
    ensures last < MaxRetries - 1 ==> script(last) != Raises(ClientError)
  {
    if a < MaxRetries - 1 && script(a) == Raises(ClientError) then LastFrom(script, a + 1) else a
  }

  /** The index of the last call the loop makes; `script(a)` is the outcome of attempt `a`. */
  function LastAttempt(script: nat -> CallOutcome): nat {
    LastFrom(script, 0)
  }

  /** How the loop ends, given the outcome of each attempt and the policy for the last failure. */
  function RetryResult(script: nat -> CallOutcome, policy: Policy): (r: CallResult)
    ensures policy == ReraiseLast ==> !r.GaveUp?
  {
    match script(LastAttempt(script))
    case Answered(content) => Replied(content)
    case Raises(OtherError) => Raised(OtherError)
    case Raises(ClientError) => if policy == ReraiseLast then Raised(ClientError) else GaveUp
  }

  /**
   * The loop in the source: call, stop on an answer or on an error other
   * than `ClientError`, and on `ClientError` either end (last attempt) or
   * sleep `Delay(attempt)` and try again. `sleeps` records each sleep.
   */
  method InvokeWithRetry(script: nat -> CallOutcome, policy: Policy) returns (res: CallResult, calls: nat, sleeps: seq<nat>)
    ensures 1 <= calls <= MaxRetries && calls == LastAttempt(script) + 1
    ensures forall a :: 0 <= a < calls - 1 ==> script(a) == Raises(ClientError)
    ensures res == RetryResult(script, policy)
    ensures policy == ReraiseLast ==> !res.GaveUp?
    ensures sleeps == Schedule(calls - 1)
  {
    var attempt := 0;
    res, sleeps := GaveUp, [];
    while true
      invariant attempt < MaxRetries
      invariant LastFrom(script, attempt) == LastAttempt(script)
      invariant forall a :: 0 <= a < attempt ==> script(a) == Raises(ClientError)
      invariant sleeps == Schedule(attempt)
      decreases MaxRetries - attempt
    {
      var outcome := script(attempt);
      if outcome.Answered? {
        res := Replied(outcome.content);
        break;
      } else if outcome.kind == OtherError {
        res := Raised(OtherError);
        break;
      } else if attempt == MaxRetries - 1 {
        if policy == ReraiseLast {
          res := Raised(ClientError);
        }
        break;
      }
      sleeps := sleeps + [Delay(attempt)];
      attempt := attempt + 1;
    }
    calls := attempt + 1;
  }

  /**
   * The two loops differ only when every attempt raised `ClientError`:
   * `bench` then re-raises and `run_agent_function` ends with no response.
   */
  lemma PoliciesDiffer(script: nat -> CallOutcome)
    ensures RetryResult(script, ReraiseLast) != RetryResult(script, BreakOnLast)
      <==> forall a :: 0 <= a < MaxRetries ==> script(a) == Raises(ClientError)
    ensures RetryResult(script, BreakOnLast) == GaveUp
      <==> forall a :: 0 <= a < MaxRetries ==> script(a) == Raises(ClientError)
  {
    var last := LastAttempt(script);
    if forall a :: 0 <= a < MaxRetries ==> script(a) == Raises(ClientError) {
      assert script(last) == Raises(ClientError);
      assert last == MaxRetries - 1;
    }
  }

  /** An answer on attempt `a`, after `a` throttled attempts, ends the loop with that answer after `a` sleeps. */
  lemma AnswerAfterFailures(script: nat -> CallOutcome, policy: Policy, a: nat, content: string)
    requires a < MaxRetries
    requires forall b :: 0 <= b < a ==> script(b) == Raises(ClientError)
    requires script(a) == Answered(content)
    ensures LastAttempt(script) == a
    ensures RetryResult(script, policy) == Replied(content)
    ensures Sum(Schedule(LastAttempt(script))) == Pow2(a) - 1
  {
    var last := LastAttempt(script);
    assert last <= a;
    assert last == a;
    ScheduleTotal(a);
  }
}
