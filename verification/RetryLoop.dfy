/** The retry middleware under the default policy: one loop per model call, and one
    recovery flag that all calls of a turn share. */
module RetryLoop {
  import opened Wrappers

  datatype ErrorType = Timeout | RateLimit | ServerError | Overloaded | Auth | OtherError

  function MaxRetries(t: ErrorType): nat {
    match t
    case Timeout => 3
    case RateLimit => 3
    case ServerError => 3
    case Overloaded => 3
    case Auth => 0
    case OtherError => 0
  }

  function Pow2(n: nat): nat {
    if n == 0 then 1 else 2 * Pow2(n - 1)
  }

  /** `retryAfter` is the parsed header in seconds, when there is one. */
  function Delay(t: ErrorType, attempt: nat, retryAfter: Option<int>): int {
    if t == ServerError || t == Overloaded then
      (if retryAfter.Some? then retryAfter.value * 1000 else 1000 * Pow2(attempt))
    else if t == RateLimit && retryAfter.Some? then retryAfter.value * 1000
    else 0
  }

  datatype Reply = Ok(value: string) | Err(error: ErrorType, retryAfter: Option<int>)

  /** What one round of the loop meets: the request's reply, and whether the signal is
      aborted before the request, after it failed, or during the wait. */
  datatype Round = Round(abortedBefore: bool, reply: Reply, abortedAfter: bool, abortedInWait: bool)

  datatype Outcome = Value(value: string) | Threw(error: ErrorType, exhausted: bool) | Aborted

  predicate Retryable(r: Round) {
    r.reply.Err? && !r.abortedAfter && MaxRetries(r.reply.error) > 0
  }

  /** The delay scheduled after round `k` failed, which is also the `k`-th retry. */
  function DelayAfter(rounds: nat -> Round, k: nat): int {
    if rounds(k).reply.Err? then Delay(rounds(k).reply.error, k, rounds(k).reply.retryAfter) else 0
  }

  /** The request is made and fails retryably. */
  predicate FailsRetryably(round: Round) {
    !round.abortedBefore && Retryable(round)
  }

  predicate WaitAborted(rounds: nat -> Round, k: nat) {
    FailsRetryably(rounds(k)) && DelayAfter(rounds, k) > 0 && rounds(k).abortedInWait
  }

  /** Round `k` ends in another request: it failed retryably and no abort intervened. */
  predicate GoesOn(rounds: nat -> Round, k: nat) {
    FailsRetryably(rounds(k)) && !WaitAborted(rounds, k)
  }

  predicate Continues(rounds: nat -> Round, n: nat) {
    n == 0 || (Continues(rounds, n - 1) && GoesOn(rounds, n - 1))
  }

  function Waits(rounds: nat -> Round, n: nat): int {
    if n == 0 then 0
    else Waits(rounds, n - 1) + if DelayAfter(rounds, n - 1) > 0 then DelayAfter(rounds, n - 1) else 0
  }

  /** Without Retry-After the waits double from a second, whatever the errors are. */
  lemma {:induction false} WaitBound(rounds: nat -> Round, n: nat)
    requires forall k: nat :: k < n && rounds(k).reply.Err? ==> rounds(k).reply.retryAfter.None?
    ensures 0 <= Waits(rounds, n) <= 1000 * (Pow2(n) - 1)
    ensures n <= 3 ==> Waits(rounds, n) <= 7000
  {
    if n > 0 { WaitBound(rounds, n - 1); }
    assert Pow2(0) == 1 && Pow2(1) == 2 && Pow2(2) == 4 && Pow2(3) == 8;
  }

  // ----- what the observer is told -----

  datatype Notice = Scheduled(attempt: nat, delayMs: int) | Exhausted(attempt: nat) | Recovered

  /** Some retry was scheduled and no recovery was reported since. */
  predicate Unreported(log: seq<Notice>) {
    log != []
    && var last := log[|log| - 1];
    last.Scheduled? || (last.Exhausted? && Unreported(log[..|log| - 1]))
  }

  /** The retry at `i` was scheduled, and nothing recovered since. */
  predicate ScheduledSince(log: seq<Notice>, i: nat) {
    i < |log| && log[i].Scheduled? && forall j :: i < j < |log| ==> !log[j].Recovered?
  }

  lemma {:induction false} UnreportedMeans(log: seq<Notice>)
    ensures Unreported(log) <==> exists i :: ScheduledSince(log, i)
    decreases |log|
  {
    if log != [] {
      var n := |log| - 1;
      UnreportedMeans(log[..n]);
      if log[n].Scheduled? { assert ScheduledSince(log, n); }
      if i: nat :| ScheduledSince(log[..n], i) && !log[n].Recovered? { assert ScheduledSince(log, i); }
      if i: nat :| ScheduledSince(log, i) && i < n { assert ScheduledSince(log[..n], i); }
    }
  }

  /** Every recovery was reported while a scheduled retry was unreported. */
  predicate Earned(log: seq<Notice>) {
    log != [] ==>
      var before := log[..|log| - 1];
      Earned(before) && (log[|log| - 1].Recovered? ==> Unreported(before))
  }

  lemma {:induction false} RecoveriesAreEarned(log: seq<Notice>, i: nat)
    requires Earned(log) && i < |log| && log[i].Recovered?
    ensures Unreported(log[..i])
    decreases |log|
  {
    if i < |log| - 1 {
      RecoveriesAreEarned(log[..|log| - 1], i);
      assert log[..|log| - 1][..i] == log[..i];
    }
  }

  lemma Noted(log: seq<Notice>, notice: Notice)
    requires Earned(log) && (notice.Recovered? ==> Unreported(log))
    ensures Earned(log + [notice])
    ensures Unreported(log + [notice]) <==> notice.Scheduled? || (notice.Exhausted? && Unreported(log))
  {
  }

  /** How a call may end in round `n`, the wait after it aside: with the answer of its request,
      exhausted exactly when that was the fourth and it failed retryably. */
  predicate EndsAs(outcome: Outcome, round: Round, n: nat) {
    match outcome
    case Value(value) => !round.abortedBefore && round.reply == Ok(value)
    case Threw(error, exhausted) =>
      && !round.abortedBefore && round.reply.Err? && round.reply.error == error
      && (exhausted <==> n == 3 && Retryable(round))
      && (!exhausted ==> !Retryable(round))
    case Aborted => round.abortedBefore
  }

  /** The outcome of a call after `n` retries. */
  predicate OutcomeIs(outcome: Outcome, rounds: nat -> Round, n: nat) {
    || (Continues(rounds, n) && EndsAs(outcome, rounds(n), n))
    || (outcome == Aborted && n > 0 && Continues(rounds, n - 1) && WaitAborted(rounds, n - 1))
  }

  lemma {:induction false} ContinuesPast(rounds: nat -> Round, n: nat, k: nat)
    requires Continues(rounds, n) && k < n
    ensures GoesOn(rounds, k)
  {
    if k < n - 1 { ContinuesPast(rounds, n - 1, k); }
  }

  lemma EndsPast(outcome: Outcome, rounds: nat -> Round, n: nat, k: nat)
    requires OutcomeIs(outcome, rounds, n) && k < n
    ensures FailsRetryably(rounds(k)) && (k < n - 1 ==> GoesOn(rounds, k))
  {
    if Continues(rounds, n) {
      ContinuesPast(rounds, n, k);
    } else if k < n - 1 {
      ContinuesPast(rounds, n - 1, k);
    }
  }

  /** Within four requests the rounds admit one outcome only. */
  lemma OneOutcome(rounds: nat -> Round, a: Outcome, m: nat, b: Outcome, n: nat)
    requires m <= n <= 3 && OutcomeIs(a, rounds, m) && OutcomeIs(b, rounds, n)
    ensures a == b && m == n
  {
    if m < n {
      if 0 < m { EndsPast(b, rounds, n, m - 1); }
      EndsPast(b, rounds, n, m);
    }
  }

  // ----- in plain terms -----

  /** A timeout, a rate limit, a server error or an overload. */
  predicate Transient(t: ErrorType) {
    t in {Timeout, RateLimit, ServerError, Overloaded}
  }

  /** The request is made, fails for a transient reason, and is not aborted meanwhile. */
  predicate FailsTransiently(round: Round) {
    && !round.abortedBefore && !round.abortedAfter
    && round.reply.Err? && Transient(round.reply.error)
  }

  /** The milliseconds before retry `k + 1`: what Retry-After says, if it is given and the error is not a
      timeout; else one, two and four seconds after a server's error, and none after the others. */
  function PlainDelay(error: ErrorType, retryAfter: Option<int>, k: nat): int
    requires k < 3
  {
    if error in {ServerError, Overloaded, RateLimit} && retryAfter.Some? then 1000 * retryAfter.value
    else if error in {ServerError, Overloaded} then [1000, 2000, 4000][k]
    else 0
  }

  lemma DelayIsPlain(rounds: nat -> Round, k: nat)
    requires k < 3 && FailsTransiently(rounds(k))
    ensures DelayAfter(rounds, k) == PlainDelay(rounds(k).reply.error, rounds(k).reply.retryAfter, k)
  {
    assert Pow2(0) == 1 && Pow2(1) == 2 && Pow2(2) == 4;
  }

  /** Round `k` is followed by another request: it fails transiently and its wait is not cut off. */
  predicate RetriedAfter(rounds: nat -> Round, k: nat)
    requires k < 3
  {
    && FailsTransiently(rounds(k))
    && !(rounds(k).abortedInWait && PlainDelay(rounds(k).reply.error, rounds(k).reply.retryAfter, k) > 0)
  }

  lemma GoesOnMeans(rounds: nat -> Round, k: nat)
    requires k < 3
    ensures GoesOn(rounds, k) <==> RetriedAfter(rounds, k)
  {
    if FailsTransiently(rounds(k)) { DelayIsPlain(rounds, k); }
  }

  lemma {:induction false} ContinuesMeans(rounds: nat -> Round, n: nat)
    requires n <= 3
    ensures Continues(rounds, n) <==> forall k: nat :: k < n ==> RetriedAfter(rounds, k)
  {
    if n > 0 {
      ContinuesMeans(rounds, n - 1);
      GoesOnMeans(rounds, n - 1);
      assert Continues(rounds, n) <==> Continues(rounds, n - 1) && RetriedAfter(rounds, n - 1);
    }
  }

  /** A call ends after `n` retries, as its last request was answered, if and only if every round before
      was retried, and the last one was aborted, answered, failed for another reason, or was the
      fourth; or it is aborted in a wait. */
  lemma OutcomeMeans(outcome: Outcome, rounds: nat -> Round, n: nat)
    requires n <= 3
    ensures OutcomeIs(outcome, rounds, n) <==>
            || (&& (forall k: nat :: k < n ==> RetriedAfter(rounds, k))
                && match outcome
                   case Aborted => rounds(n).abortedBefore
                   case Value(value) => !rounds(n).abortedBefore && rounds(n).reply == Ok(value)
                   case Threw(error, exhausted) =>
                     && !rounds(n).abortedBefore && rounds(n).reply.Err? && rounds(n).reply.error == error
                     && (FailsTransiently(rounds(n)) ==> n == 3)
                     && (exhausted <==> FailsTransiently(rounds(n))))
            || (&& outcome == Aborted && n > 0
                && (forall k: nat :: k < n - 1 ==> RetriedAfter(rounds, k))
                && FailsTransiently(rounds(n - 1)) && !RetriedAfter(rounds, n - 1))
  {
    ContinuesMeans(rounds, n);
    if n > 0 {
      ContinuesMeans(rounds, n - 1);
      GoesOnMeans(rounds, n - 1);
    }
  }

  /** And every call ends. */
  lemma SomeOutcome(rounds: nat -> Round) returns (outcome: Outcome, n: nat)
    ensures n <= 3 && OutcomeIs(outcome, rounds, n)
  {
    n := 0;
    while n < 3 && GoesOn(rounds, n)
      invariant n <= 3 && Continues(rounds, n)
    {
      n := n + 1;
    }
    var round := rounds(n);
    if round.abortedBefore {
      outcome := Aborted;
    } else if round.reply.Ok? {
      outcome := Value(round.reply.value);
    } else if n < 3 && WaitAborted(rounds, n) {
      outcome, n := Aborted, n + 1;
    } else {
      outcome := Threw(round.reply.error, Retryable(round));
    }
  }

  /** While the server keeps failing and says nothing of when to retry, the waits are exactly one second,
      then two, then four. */
  lemma {:induction false} ServerWaits(rounds: nat -> Round, n: nat)
    requires n <= 3 && forall k: nat :: k < n ==>
               rounds(k).reply == Err(ServerError, None) || rounds(k).reply == Err(Overloaded, None)
    ensures Waits(rounds, n) == [0, 1000, 3000, 7000][n]
  {
    assert Pow2(0) == 1 && Pow2(1) == 2 && Pow2(2) == 4;
    if n > 0 { ServerWaits(rounds, n - 1); }
  }

  /** The first `n` retries were announced, each with its number and its delay. */
  ghost predicate Announced(news: seq<Notice>, rounds: nat -> Round, n: nat) {
    forall k: nat :: k < n ==> Scheduled(k + 1, DelayAfter(rounds, k)) in news
  }

  lemma StillAnnounced(start: seq<Notice>, log: seq<Notice>, log': seq<Notice>, rounds: nat -> Round, n: nat)
    requires start <= log <= log' && Announced(log[|start|..], rounds, n)
    ensures Announced(log'[|start|..], rounds, n)
  {
  }

  /** When a call gives up the observer is told; a success leaves no recovery unreported. */
  predicate Told(outcome: Outcome, log: seq<Notice>) {
    && (outcome.Threw? && outcome.exhausted ==> log != [] && log[|log| - 1] == Exhausted(3))
    && (outcome.Value? ==> !Unreported(log))
  }

  class RetryMiddleware {
    var everRetried: bool
    var log: seq<Notice>

    /** The flag says exactly whether a scheduled retry is still unreported. */
    ghost predicate Valid()
      reads this
    {
      Earned(log) && (everRetried <==> Unreported(log))
    }

    constructor ()
      ensures Valid() && log == []
    {
      everRetried, log := false, [];
    }

    method Note(notice: Notice)
      requires Earned(log) && (notice.Recovered? ==> Unreported(log))
      modifies this`log
      ensures log == old(log) + [notice] && Earned(log)
      ensures Unreported(log) <==> notice.Scheduled? || (notice.Exhausted? && Unreported(old(log)))
    {
      Noted(log, notice);
      log := log + [notice];
    }

    /** A call that began at `start` is under way, with `n` retries announced so far. */
    ghost predicate Underway(start: seq<Notice>, rounds: nat -> Round, n: nat)
      reads this
    {
      Valid() && start <= log && Announced(log[|start|..], rounds, n)
    }

    /** Whatever the turn's other calls do while this one waits. */
    method OtherCalls(ghost start: seq<Notice>, ghost rounds: nat -> Round, ghost n: nat)
      requires Underway(start, rounds, n)
      modifies this
      ensures Underway(start, rounds, n) && old(log) <= log
    {
    }

    method ScheduleRetry(attempt: nat, delay: int, ghost start: seq<Notice>, ghost rounds: nat -> Round)
      requires Underway(start, rounds, attempt) && delay == DelayAfter(rounds, attempt)
      modifies this
      ensures Underway(start, rounds, attempt + 1)
      ensures log == old(log) + [Scheduled(attempt + 1, delay)]
    {
      everRetried := true;
      Note(Scheduled(attempt + 1, delay));
      StillAnnounced(start, old(log), log, rounds, attempt);
      assert log[|start|..] == old(log)[|start|..] + [Scheduled(attempt + 1, delay)];
    }

    method ReportSuccess(ghost start: seq<Notice>, ghost rounds: nat -> Round, ghost retries: nat)
      requires Underway(start, rounds, retries)
      modifies this
      ensures Underway(start, rounds, retries)
      ensures !Unreported(log) && log == if old(everRetried) then old(log) + [Recovered] else old(log)
    {
      if everRetried {
        everRetried := false;
        Note(Recovered);
        StillAnnounced(start, old(log), log, rounds, retries);
      }
    }

    method ReportExhausted(attempt: nat, ghost start: seq<Notice>, ghost rounds: nat -> Round)
      requires Underway(start, rounds, attempt)
      modifies this
      ensures Underway(start, rounds, attempt)
      ensures log == old(log) + [Exhausted(attempt)]
    {
      Note(Exhausted(attempt));
      StillAnnounced(start, old(log), log, rounds, attempt);
    }

    /** One round up to its wait: how it ends the call, or the delay before the next. */
    method TryOnce(rounds: nat -> Round, attempt: nat, ghost start: seq<Notice>)
      returns (ended: Option<Outcome>, delay: int)
      requires Underway(start, rounds, attempt) && attempt <= 3
      modifies this
      ensures ended.None? ==>
                && attempt < 3 && FailsRetryably(rounds(attempt)) && delay == DelayAfter(rounds, attempt)
                && Underway(start, rounds, attempt + 1)
      ensures ended.Some? ==> EndsAs(ended.value, rounds(attempt), attempt) && Underway(start, rounds, attempt)
      ensures ended.Some? ==> Told(ended.value, log)
    {
      var round := rounds(attempt);
      delay := 0;
      if round.abortedBefore {
        return Some(Aborted), 0;
      }
      OtherCalls(start, rounds, attempt);
      if round.reply.Ok? {
        ReportSuccess(start, rounds, attempt);
        return Some(Value(round.reply.value)), 0;
      }
      var error := round.reply.error;
      if round.abortedAfter {
        return Some(Threw(error, false)), 0;
      }
      var max := MaxRetries(error);
      if attempt >= max {
        if max > 0 {
          ReportExhausted(attempt, start, rounds);
        }
        return Some(Threw(error, max > 0)), 0;
      }
      delay := Delay(error, attempt, round.reply.retryAfter);
      ScheduleRetry(attempt, delay, start, rounds);
      ended := None;
    }

    method RunWithRetry(rounds: nat -> Round) returns (outcome: Outcome, retries: nat, waited: int)
      requires Valid()
      modifies this
      // Four requests at most.
      ensures retries <= 3 && OutcomeIs(outcome, rounds, retries)
      // Every retry was announced and waited for.
      ensures Underway(old(log), rounds, retries) && waited == Waits(rounds, retries)
      ensures outcome != Aborted ==> Told(outcome, log)
    {
      var attempt := 0;
      waited := 0;
      ghost var start := log;
      while true
        invariant attempt <= 3 && Continues(rounds, attempt)
        invariant Underway(start, rounds, attempt)
        invariant waited == Waits(rounds, attempt)
        decreases 4 - attempt
      {
        var ended, delay := TryOnce(rounds, attempt, start);
        if ended.Some? {
          outcome, retries := ended.value, attempt;
          return;
        }
        attempt := attempt + 1;
        if delay > 0 {
          waited := waited + delay;
          OtherCalls(start, rounds, attempt);
          if rounds(attempt - 1).abortedInWait {
            outcome, retries := Aborted, attempt;
            return;
          }
        }
      }
    }
  }
}
