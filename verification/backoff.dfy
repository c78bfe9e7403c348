/**
 * The retry-delay generator of backoff/backoff.go.
 *
 * `New(maxRetries)` returns a closure over a counter `retry`; each call either
 * fails with ErrMaxBackoffReached or sleeps and returns nil. Here the closure is
 * the class `Generator`, the sleep is a ghost delay in milliseconds, and one call
 * is described by a pure step function.
 *
 * Two bodies are modelled. `AsWritten` is the closure exactly as the source has
 * it: the `retry == 0` return comes before `retry++`, so the counter never moves.
 * `Documented` is the schedule of the doc comment above `New`: call n sleeps
 * 2^n * 100 ms (none for n = 0) and the counter then advances.
 */
module Backoff {

  /** What one call returns: nil, or ErrMaxBackoffReached. */
  datatype Outcome = Ok | ErrMaxBackoffReached

  /** Which body the generator runs. */
  datatype Schedule = AsWritten | Documented

  /** The effect of one call: the counter afterwards, the value returned, the sleep in ms. */
  datatype Step = Step(retry: nat, outcome: Outcome, delayMs: nat)

  function Pow2(n: nat): (r: nat)
    ensures r >= 1
  {
    if n == 0 then 1 else 2 * Pow2(n - 1)
  }

  /** The doc comment's "Backoff" column: no delay for the first try, 2^n * 100 ms for retry n. */
  function DocumentedDelay(n: nat): (ms: nat)
    ensures n == 0 <==> ms == 0
  {
    if n == 0 then 0 else Pow2(n) * 100
  }

  /** The doc comment's "Total elapsed" column: the sum of the delays of retries 0..n. */
  function DocumentedElapsed(n: nat): nat
  {
    if n == 0 then DocumentedDelay(0) else DocumentedElapsed(n - 1) + DocumentedDelay(n)
  }

  /** One call of the closure as written (backoff/backoff.go:41-51). */
  function AsWrittenStep(retry: nat, maxRetries: int): (s: Step)
    ensures s.outcome == ErrMaxBackoffReached <==> retry > maxRetries
    ensures s.outcome == ErrMaxBackoffReached ==> s.retry == retry && s.delayMs == 0
    ensures retry == 0 ==> s.retry == 0 && s.delayMs == 0
    // the counter is bumped before the power is taken: one row further down the table
    ensures retry >= 1 && s.outcome == Ok ==> s.retry == retry + 1 && s.delayMs == DocumentedDelay(retry + 1)
    ensures retry >= 1 && s.outcome == Ok ==> s.delayMs == 2 * DocumentedDelay(retry)
  {
    if retry > maxRetries then Step(retry, ErrMaxBackoffReached, 0)
    else if retry == 0 then Step(0, Ok, 0)
    else Step(retry + 1, Ok, Pow2(retry + 1) * 100)
  }

  /** One call under the documented schedule: the counter names the row of the table. */
  function DocumentedStep(retry: nat, maxRetries: int): (s: Step)
    ensures s.outcome == ErrMaxBackoffReached <==> retry > maxRetries
    ensures s.outcome == ErrMaxBackoffReached ==> s.retry == retry && s.delayMs == 0
    ensures s.outcome == Ok ==> s.retry == retry + 1 && s.delayMs == DocumentedDelay(retry)
  {
    if retry > maxRetries then Step(retry, ErrMaxBackoffReached, 0)
    else Step(retry + 1, Ok, DocumentedDelay(retry))
  }

  function Next(schedule: Schedule, retry: nat, maxRetries: int): Step
  {
    match schedule
    case AsWritten => AsWrittenStep(retry, maxRetries)
    case Documented => DocumentedStep(retry, maxRetries)
  }

  /** The steps of n consecutive calls on a generator whose counter is `retry`. */
  function Calls(schedule: Schedule, retry: nat, maxRetries: int, n: nat): (steps: seq<Step>)
    ensures |steps| == n
    decreases n
  {
    if n == 0 then []
    else
      var s := Next(schedule, retry, maxRetries);
      [s] + Calls(schedule, s.retry, maxRetries, n - 1)
  }

  /** Total time slept over a sequence of calls. */
  function TotalDelay(steps: seq<Step>): nat
  {
    if steps == [] then 0 else TotalDelay(steps[..|steps| - 1]) + steps[|steps| - 1].delayMs
  }

  /** The closure of backoff.New: `retry` is the captured counter, `maxRetries` the captured ceiling. */
  class Generator {
    const maxRetries: int
    const schedule: Schedule
    var retry: nat

    constructor (maxRetries: int, schedule: Schedule)
      ensures this.maxRetries == maxRetries && this.schedule == schedule
      ensures retry == 0
    {
      this.maxRetries := maxRetries;
      this.schedule := schedule;
      retry := 0;
    }

    /** One call of the closure; `delayMs` is how long it sleeps. */
    method Advance() returns (outcome: Outcome, ghost delayMs: nat)
      modifies this
      ensures Step(retry, outcome, delayMs) == Next(schedule, old(retry), maxRetries)
      ensures outcome == ErrMaxBackoffReached ==> retry == old(retry)
      ensures schedule == AsWritten && old(retry) == 0 ==> retry == 0
    {
      if retry > maxRetries {
        return ErrMaxBackoffReached, 0;
      }
      if schedule == AsWritten {
        if retry == 0 {
          return Ok, 0;
        }
        retry := retry + 1;
        delayMs := Pow2(retry) * 100;
      } else {
        delayMs := if retry == 0 then 0 else Pow2(retry) * 100;
        retry := retry + 1;
      }
      outcome := Ok;
    }
  }

  /** With a negative ceiling every call fails at once and the counter stays 0, under either body. */
  lemma {:induction false} NegativeCeilingAlwaysFails(schedule: Schedule, maxRetries: int, n: nat)
    requires maxRetries < 0
    ensures forall k :: 0 <= k < n ==> Calls(schedule, 0, maxRetries, n)[k] == Step(0, ErrMaxBackoffReached, 0)
  {
    if n > 0 {
      NegativeCeilingAlwaysFails(schedule, maxRetries, n - 1);
      var steps := Calls(schedule, 0, maxRetries, n);
      assert steps == [Step(0, ErrMaxBackoffReached, 0)] + Calls(schedule, 0, maxRetries, n - 1);
    }
  }

  /**
   * As written, with a ceiling of 0 or more, any number of calls all return nil
   * without sleeping and the counter never leaves 0: the generator never exhausts.
   */
  lemma {:induction false} AsWrittenNeverAdvances(maxRetries: int, n: nat)
    requires maxRetries >= 0
    ensures forall k :: 0 <= k < n ==> Calls(AsWritten, 0, maxRetries, n)[k] == Step(0, Ok, 0)
    ensures TotalDelay(Calls(AsWritten, 0, maxRetries, n)) == 0
  {
    if n > 0 {
      AsWrittenNeverAdvances(maxRetries, n - 1);
      var steps := Calls(AsWritten, 0, maxRetries, n);
      assert steps == [Step(0, Ok, 0)] + Calls(AsWritten, 0, maxRetries, n - 1);
      ZeroDelays(steps);
    }
  }

  lemma {:induction false} ZeroDelays(steps: seq<Step>)
    requires forall k :: 0 <= k < |steps| ==> steps[k].delayMs == 0
    ensures TotalDelay(steps) == 0
  {
    if steps != [] {
      ZeroDelays(steps[..|steps| - 1]);
    }
  }

  /**
   * Under the documented schedule, call k on a fresh generator (or on one whose
   * counter is `retry`) returns nil after sleeping the table's delay for its row,
   * until the counter passes the ceiling; from then on every call fails and the
   * counter stays at maxRetries + 1.
   */
  lemma {:induction false} DocumentedCalls(maxRetries: int, retry: nat, n: nat)
    requires retry <= maxRetries + 1
    ensures forall k :: 0 <= k < n ==>
      Calls(Documented, retry, maxRetries, n)[k] ==
        (if retry + k <= maxRetries then Step(retry + k + 1, Ok, DocumentedDelay(retry + k))
         else Step(maxRetries + 1, ErrMaxBackoffReached, 0))
    decreases n
  {
    if n > 0 {
      var s := DocumentedStep(retry, maxRetries);
      var rest := Calls(Documented, s.retry, maxRetries, n - 1);
      assert Calls(Documented, retry, maxRetries, n) == [s] + rest;
      DocumentedCalls(maxRetries, s.retry, n - 1);
      if retry > maxRetries {
        assert retry == maxRetries + 1;
      }
    }
  }

  /** The first excess call fails: a fresh generator allows exactly maxRetries + 1 successful calls. */
  lemma DocumentedExhaustsAfterCeiling(maxRetries: nat)
    ensures var steps := Calls(Documented, 0, maxRetries, maxRetries + 2);
      && (forall k :: 0 <= k <= maxRetries ==> steps[k].outcome == Ok)
      && steps[maxRetries + 1].outcome == ErrMaxBackoffReached
  {
    DocumentedCalls(maxRetries, 0, maxRetries + 2);
  }

  /** The time slept by the first n <= maxRetries + 1 calls is the table's total elapsed after retry n - 1. */
  lemma DocumentedTotalDelay(maxRetries: int, n: nat)
    requires 1 <= n <= maxRetries + 1
    ensures TotalDelay(Calls(Documented, 0, maxRetries, n)) == DocumentedElapsed(n - 1)
  {
    DocumentedCalls(maxRetries, 0, n);
    DelaysOfSchedule(Calls(Documented, 0, maxRetries, n));
  }

  lemma {:induction false} DelaysOfSchedule(steps: seq<Step>)
    requires steps != []
    requires forall k :: 0 <= k < |steps| ==> steps[k].delayMs == DocumentedDelay(k)
    ensures TotalDelay(steps) == DocumentedElapsed(|steps| - 1)
  {
    if |steps| > 1 {
      DelaysOfSchedule(steps[..|steps| - 1]);
    }
  }

  /** Closed form of the "Total elapsed" column: 200 * (2^n - 1) ms after retry n. */
  lemma {:induction false} ElapsedClosedForm(n: nat)
    ensures DocumentedElapsed(n) == 200 * (Pow2(n) - 1)
  {
    if n > 0 {
      ElapsedClosedForm(n - 1);
    }
  }

  /** The table in the doc comment of New, for retries 0..7. */
  lemma DocumentedTable()
    ensures [DocumentedDelay(0), DocumentedDelay(1), DocumentedDelay(2), DocumentedDelay(3),
             DocumentedDelay(4), DocumentedDelay(5), DocumentedDelay(6), DocumentedDelay(7)]
         == [0, 200, 400, 800, 1600, 3200, 6400, 12800]
    ensures [DocumentedElapsed(0), DocumentedElapsed(1), DocumentedElapsed(2), DocumentedElapsed(3),
             DocumentedElapsed(4), DocumentedElapsed(5), DocumentedElapsed(6), DocumentedElapsed(7)]
         == [0, 200, 600, 1400, 3000, 6200, 12600, 25400]
  {
    assert Pow2(1) == 2;
    assert Pow2(2) == 4;
    assert Pow2(3) == 8;
    assert Pow2(4) == 16;
    assert Pow2(5) == 32;
    assert Pow2(6) == 64;
    assert Pow2(7) == 128;
  }
}
