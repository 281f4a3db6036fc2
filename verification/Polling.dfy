/**
 Waiting for a submitted transaction: poll, report each status seen, back off, and give up at
 the deadline. The application and the SDK carry the same loop.

 Time is in milliseconds. Replies and clock belong to the environment: `reply(k)` is what poll
 number k answers and `clock(k)` the time just after it.
 */
module Polling {

  datatype Reply = Success | Failure | NotFound | Unreachable

  datatype PaymentStatus = Pending | Confirmed | Failed | Expired

  datatype Outcome = Resolved | TransactionFailed | TransactionTimedOut | RpcFailed

  const MAX_POLL_INTERVAL := 5000

  function PowerOfTwo(k: nat): (p: nat)
    ensures p >= 1
  {
    if k == 0 then 1 else 2 * PowerOfTwo(k - 1)
  }

  function Min(a: int, b: int): int {
    if a < b then a else b
  }

  function Backoff(base: int, attempt: nat): int {
    Min(base * PowerOfTwo(attempt), MAX_POLL_INTERVAL)
  }

  /** Sleeps last at least as long as asked for, and time does not run backwards. */
  ghost predicate Elapses(clock: nat -> int, start: int, base: int) {
    && clock(0) >= start
    && forall k: nat :: clock(k + 1) >= clock(k) + Backoff(base, k)
  }

  /** Poll number k is the first that does not lead to another. */
  ghost predicate LastPoll(reply: nat -> Reply, clock: nat -> int, deadline: int, k: nat) {
    && (reply(k) != NotFound || clock(k) >= deadline)
    && (forall j: nat :: j < k ==> reply(j) == NotFound && clock(j) < deadline)
  }

  function Conclusion(last: Reply): Outcome {
    match last
    case Success => Resolved
    case Failure => TransactionFailed
    case NotFound => TransactionTimedOut
    case Unreachable => RpcFailed
  }

  /** `pending` first, then one terminal status, unless the last poll got no answer at all. */
  function Reported(last: Reply): seq<PaymentStatus> {
    match last
    case Success => [Pending, Confirmed]
    case Failure => [Pending, Failed]
    case NotFound => [Pending, Expired]
    case Unreachable => [Pending]
  }

  /** Replies and clock decide where polling ends, so any loop with the contract below gives the same trace. */
  lemma TraceIsDetermined(reply: nat -> Reply, clock: nat -> int, deadline: int, j: nat, k: nat)
    requires LastPoll(reply, clock, deadline, j) && LastPoll(reply, clock, deadline, k)
    ensures j == k
  {
  }

  /** Backing off never sleeps less than the smaller of base interval and cap. */
  lemma BackoffFloor(base: int, attempt: nat)
    requires base >= 1
    ensures 1 <= Min(base, MAX_POLL_INTERVAL) <= Backoff(base, attempt) <= MAX_POLL_INTERVAL
  {
    assert base * PowerOfTwo(attempt) >= base by {
      assert base * (PowerOfTwo(attempt) - 1) >= 0;
    }
  }

  lemma {:induction false} ClockAdvances(clock: nat -> int, start: int, base: int, k: nat)
    requires base >= 1 && Elapses(clock, start, base)
    ensures clock(k) >= start + k * Min(base, MAX_POLL_INTERVAL)
  {
    if k > 0 {
      ClockAdvances(clock, start, base, k - 1);
      BackoffFloor(base, k - 1);
      assert clock(k - 1 + 1) >= clock(k - 1) + Backoff(base, k - 1);
    }
  }

  function CeilDiv(a: nat, b: nat): nat
    requires b > 0
  {
    (a + b - 1) / b
  }

  /** Number of polls that cannot be exceeded. */
  function MostPolls(timeout: int, base: int): nat
    requires base >= 1
  {
    CeilDiv(if timeout < 0 then 0 else timeout, Min(base, MAX_POLL_INTERVAL)) + 1
  }

  lemma CeilDivCovers(a: nat, b: nat)
    requires b > 0
    ensures CeilDiv(a, b) * b >= a
  {
    var n := a + b - 1;
    assert n == n / b * b + n % b;
  }

  /** By the last poll of the bound the deadline has passed, so no poll follows it. */
  lemma DeadlinePassed(clock: nat -> int, start: int, timeout: int, base: int, k: nat)
    requires base >= 1 && Elapses(clock, start, base) && k >= MostPolls(timeout, base) - 1
    ensures clock(k) >= start + timeout
  {
    var m, t := Min(base, MAX_POLL_INTERVAL), if timeout < 0 then 0 else timeout;
    ClockAdvances(clock, start, base, k);
    assert k >= CeilDiv(t, m);
    hide MostPolls, CeilDiv, Elapses, Backoff;
    CeilDivCovers(t, m);
    MulKeepsOrder(CeilDiv(t, m), k, m);
  }

  lemma MulKeepsOrder(a: nat, b: nat, m: nat)
    requires a <= b
    ensures a * m <= b * m
  {
  }

  method WaitForTransaction(timeout: int, base: int, start: int, reply: nat -> Reply, clock: nat -> int)
    returns (statuses: seq<PaymentStatus>, outcome: Outcome, polls: nat)
    requires base >= 1 && Elapses(clock, start, base)
    ensures 1 <= polls <= MostPolls(timeout, base)
    ensures LastPoll(reply, clock, start + timeout, polls - 1)
    ensures outcome == Conclusion(reply(polls - 1))
    ensures statuses == Reported(reply(polls - 1))
  {
    var deadline := start + timeout;
    statuses := [Pending];
    var attempt := 0;
    while true
      invariant attempt < MostPolls(timeout, base)
      invariant statuses == [Pending]
      invariant forall j: nat :: j < attempt ==> reply(j) == NotFound && clock(j) < deadline
      decreases MostPolls(timeout, base) - attempt
    {
      polls := attempt + 1;
      match reply(attempt) {
        case Success => return statuses + [Confirmed], Resolved, polls;
        case Failure => return statuses + [Failed], TransactionFailed, polls;
        case Unreachable => return statuses, RpcFailed, polls;
        case NotFound =>
      }
      if clock(attempt) >= deadline {
        return statuses + [Expired], TransactionTimedOut, polls;
      }
      if attempt + 1 >= MostPolls(timeout, base) {
        DeadlinePassed(clock, start, timeout, base, attempt);
      }
      attempt := attempt + 1;
    }
  }

  /**
   Confirmed and failed mean that the chain said so and nothing before contradicted it; expired
   means that every single poll came back empty and the deadline had passed.
   */
  lemma OutcomesAreEarned(reply: nat -> Reply, clock: nat -> int, deadline: int, k: nat)
    requires LastPoll(reply, clock, deadline, k)
    ensures Confirmed in Reported(reply(k)) <==> reply(k) == Success
    ensures Failed in Reported(reply(k)) <==> reply(k) == Failure
    ensures Expired in Reported(reply(k)) <==> (forall j: nat :: j <= k ==> reply(j) == NotFound)
    ensures Expired in Reported(reply(k)) ==> clock(k) >= deadline
  {
    assert reply(k) == NotFound ==> forall j: nat :: j <= k ==> reply(j) == NotFound;
  }

  /** How the wait ends and what was last reported say the same, and follow from the last reply. */
  lemma OutcomeMatchesReport(last: Reply)
    ensures Reported(last)[0] == Pending && |Reported(last)| <= 2
    ensures Conclusion(last) == Resolved <==> last == Success
    ensures Conclusion(last) == TransactionFailed <==> last == Failure
    ensures Conclusion(last) == TransactionTimedOut <==> last == NotFound
    ensures Conclusion(last) == RpcFailed <==> last == Unreachable
    ensures Reported(last) == [Pending, Confirmed] <==> Conclusion(last) == Resolved
    ensures Reported(last) == [Pending, Failed] <==> Conclusion(last) == TransactionFailed
    ensures Reported(last) == [Pending, Expired] <==> Conclusion(last) == TransactionTimedOut
    ensures Reported(last) == [Pending] <==> Conclusion(last) == RpcFailed
  {
  }

  /**
   The timeout is not a hard cap on the waiting time. Giving up is late by less than one capped
   sleep plus the time the last poll itself took.
   */
  lemma OvershootIsBounded(reply: nat -> Reply, clock: nat -> int, start: int, timeout: int, base: int, k: nat, lag: nat)
    requires base >= 1 && timeout >= 0 && LastPoll(reply, clock, start + timeout, k)
    requires clock(0) <= start + lag
    requires forall j: nat :: clock(j + 1) <= clock(j) + Backoff(base, j) + lag
    ensures clock(k) <= start + timeout + MAX_POLL_INTERVAL + lag
  {
    if k > 0 {
      BackoffFloor(base, k - 1);
      assert clock(k - 1) < start + timeout;
      assert clock(k - 1 + 1) <= clock(k - 1) + Backoff(base, k - 1) + lag;
    }
  }

  // ---------------------------------------------------------------------------
  // Exactly when a timeout is kept
  // ---------------------------------------------------------------------------

  /** The time of the first k sleeps together. */
  function Slept(base: int, k: nat): int {
    if k == 0 then 0 else Slept(base, k - 1) + Backoff(base, k - 1)
  }

  /** Polls take no time and sleeps last exactly as long as asked for: the best a loop can hope for. */
  ghost predicate Punctual(clock: nat -> int, start: int, base: int) {
    && clock(0) == start
    && forall k: nat :: clock(k + 1) == clock(k) + Backoff(base, k)
  }

  lemma {:induction false} PunctualClock(clock: nat -> int, start: int, base: int, k: nat)
    requires Punctual(clock, start, base)
    ensures clock(k) == start + Slept(base, k)
  {
    if k > 0 {
      PunctualClock(clock, start, base, k - 1);
      assert clock(k - 1 + 1) == clock(k - 1) + Backoff(base, k - 1);
    }
  }

  lemma {:induction false} SleptGrows(base: int, j: nat, k: nat)
    requires base >= 1 && j < k
    ensures Slept(base, j) < Slept(base, k)
  {
    BackoffFloor(base, k - 1);
    if j < k - 1 {
      SleptGrows(base, j, k - 1);
    }
  }

  lemma {:induction false} ClockRuns(clock: nat -> int, start: int, base: int, j: nat, k: nat)
    requires base >= 1 && Elapses(clock, start, base) && j < k
    ensures clock(j) < clock(k)
  {
    BackoffFloor(base, k - 1);
    assert clock(k - 1 + 1) >= clock(k - 1) + Backoff(base, k - 1);
    if j < k - 1 {
      ClockRuns(clock, start, base, j, k - 1);
    }
  }

  /** Whatever the polls take, a loop that gives up is on time only if some poll ends on the deadline to the millisecond. */
  lemma {:induction false} KeptOnlyToTheInstant(reply: nat -> Reply, clock: nat -> int, start: int, timeout: int, base: int, k: nat)
    requires base >= 1 && Elapses(clock, start, base)
    requires LastPoll(reply, clock, start + timeout, k) && reply(k) == NotFound
    ensures clock(k) <= start + timeout <==> exists m: nat :: clock(m) == start + timeout
  {
    if m: nat :| clock(m) == start + timeout {
      assert m < k ==> reply(m) == NotFound && clock(m) < start + timeout;
      if k < m {
        ClockRuns(clock, start, base, k, m);
      }
    }
  }

  /**
   On a punctual clock a caller can tell beforehand: a loop that gives up does so within its
   timeout if and only if the timeout is the sum of the first few sleeps.
   */
  lemma {:induction false} TimeoutKeptExactly(reply: nat -> Reply, clock: nat -> int, start: int, timeout: int, base: int, k: nat)
    requires base >= 1 && Punctual(clock, start, base)
    requires LastPoll(reply, clock, start + timeout, k) && reply(k) == NotFound
    ensures clock(k) <= start + timeout <==> exists m: nat :: Slept(base, m) == timeout
  {
    KeptOnlyToTheInstant(reply, clock, start, timeout, base, k);
    if m: nat :| clock(m) == start + timeout {
      PunctualClock(clock, start, base, m);
    }
    if m: nat :| Slept(base, m) == timeout {
      PunctualClock(clock, start, base, m);
    }
  }

  const DEFAULT_POLL_INTERVAL := 1500
  const DEFAULT_POLL_TIMEOUT := 60_000
  const SUBMISSION_TIMEOUT := 20_000

  /** From the second sleep on, the default backoff is at its cap. */
  lemma {:induction false} SleptAtDefaults(k: nat)
    ensures Slept(DEFAULT_POLL_INTERVAL, 0) == 0 && Slept(DEFAULT_POLL_INTERVAL, 1) == 1500
    ensures k >= 2 ==> Slept(DEFAULT_POLL_INTERVAL, k) == 4500 + (k - 2) * MAX_POLL_INTERVAL
    ensures k >= 2 ==> PowerOfTwo(k) >= 4
  {
    assert Slept(DEFAULT_POLL_INTERVAL, 1) == Slept(DEFAULT_POLL_INTERVAL, 0) + Backoff(DEFAULT_POLL_INTERVAL, 0);
    if k == 2 {
      assert PowerOfTwo(1) == 2 && PowerOfTwo(2) == 4;
      assert Slept(DEFAULT_POLL_INTERVAL, 2) == Slept(DEFAULT_POLL_INTERVAL, 1) + Backoff(DEFAULT_POLL_INTERVAL, 1);
    } else if k > 2 {
      SleptAtDefaults(k - 1);
    }
  }

  /** Neither the default timeout nor the one a payment submission asks for is ever kept: both run 4500 over. */
  lemma {:induction false} DefaultsOvershoot(reply: nat -> Reply, clock: nat -> int, start: int, timeout: int, k: nat)
    requires timeout == DEFAULT_POLL_TIMEOUT || timeout == SUBMISSION_TIMEOUT
    requires Punctual(clock, start, DEFAULT_POLL_INTERVAL)
    requires LastPoll(reply, clock, start + timeout, k) && reply(k) == NotFound
    ensures clock(k) == start + timeout + 4500
  {
    var last := if timeout == DEFAULT_POLL_TIMEOUT then 14 else 6;
    assert last < k ==> reply(last) == NotFound && clock(last) < start + timeout;
    PunctualClock(clock, start, DEFAULT_POLL_INTERVAL, k);
    PunctualClock(clock, start, DEFAULT_POLL_INTERVAL, last);
    SleptAtDefaults(last);
    SleptAtDefaults(last - 1);
    if k < last - 1 {
      SleptGrows(DEFAULT_POLL_INTERVAL, k, last - 1);
    }
  }

  /** Every poll up to number k was empty, every sleep punctual, and the wait gave up 4500 past its timeout. */
  ghost predicate GivesUpLate(reply: nat -> Reply, clock: nat -> int, timeout: int, k: nat) {
    && Elapses(clock, 0, DEFAULT_POLL_INTERVAL) && Punctual(clock, 0, DEFAULT_POLL_INTERVAL)
    && LastPoll(reply, clock, timeout, k) && reply(k) == NotFound
    && clock(k) == timeout + 4500
  }

  /** Such a wait exists: every poll empty, every sleep punctual, and the loop gives up late. */
  lemma TimeoutIsNoHardCap(timeout: int)
    requires timeout == DEFAULT_POLL_TIMEOUT || timeout == SUBMISSION_TIMEOUT
    ensures exists reply: nat -> Reply, clock: nat -> int, k: nat :: GivesUpLate(reply, clock, timeout, k)
  {
    hide GivesUpLate, Slept;
    var reply: nat -> Reply := (k: nat) => NotFound;
    var clock: nat -> int := (k: nat) => Slept(DEFAULT_POLL_INTERVAL, k);
    GivingUpLate(timeout, reply, clock);
  }

  lemma GivingUpLate(timeout: int, reply: nat -> Reply, clock: nat -> int)
    requires timeout == DEFAULT_POLL_TIMEOUT || timeout == SUBMISSION_TIMEOUT
    requires forall k: nat :: reply(k) == NotFound && clock(k) == Slept(DEFAULT_POLL_INTERVAL, k)
    ensures GivesUpLate(reply, clock, timeout, if timeout == DEFAULT_POLL_TIMEOUT then 14 else 6)
  {
    var last := if timeout == DEFAULT_POLL_TIMEOUT then 14 else 6;
    SleptIsPunctual(clock);
    SleptAtDefaults(last);
    SleptAtDefaults(last - 1);
    hide Slept, Elapses, Punctual, Backoff, PowerOfTwo;
    forall j: nat | j < last
      ensures reply(j) == NotFound && clock(j) < timeout
    {
      if j < last - 1 {
        SleptGrows(DEFAULT_POLL_INTERVAL, j, last - 1);
      }
    }
  }

  lemma SleptIsPunctual(clock: nat -> int)
    requires forall k: nat :: clock(k) == Slept(DEFAULT_POLL_INTERVAL, k)
    ensures Elapses(clock, 0, DEFAULT_POLL_INTERVAL) && Punctual(clock, 0, DEFAULT_POLL_INTERVAL)
  {
    hide Backoff;
  }
}
