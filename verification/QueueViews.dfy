/** The queue's stream counters agree with what claims hand out. */
module QueueViews {
  import opened Wrappers
  import opened WorkRows

  // ----- counters -----

  datatype Stats = Stats(depth: nat, pending: nat, oldestQueuedAt: Option<int>)

  /** `s.environment_id = ? AND status = 'queued' AND stopped_at IS NULL AND s.status NOT IN (terminal)` */
  predicate LiveQueued(rows: Rows, sessions: Sessions, env: string, i: nat)
    requires i < |rows|
  {
    InEnvironment(sessions, rows[i], env) && rows[i].status == Queued && rows[i].stoppedAt.None?
    && !Ended(sessions, rows[i].session)
  }

  function Live(rows: Rows, sessions: Sessions, env: string): set<nat> {
    set i: nat | i < |rows| && LiveQueued(rows, sessions, env, i)
  }

  function Ready(rows: Rows, sessions: Sessions, env: string, cutoff: int): set<nat> {
    set i: nat | i < |rows| && LiveQueued(rows, sessions, env, i) && LeaseOut(rows[i], cutoff)
  }

  function Leased(rows: Rows, sessions: Sessions, env: string, cutoff: int): set<nat> {
    set i: nat | i < |rows| && LiveQueued(rows, sessions, env, i) && InsideLease(rows[i], cutoff)
  }

  /** `MIN(created_at)` over some rows. */
  function MinCreated(rows: Rows, ids: set<nat>, n: nat): (least: Option<int>)
    requires n <= |rows|
    ensures least.None? <==> forall i: nat :: i < n ==> i !in ids
    ensures least.Some? ==>
              && (exists i: nat :: i < n && i in ids && rows[i].createdAt == least.value)
              && forall i: nat :: i < n && i in ids ==> least.value <= rows[i].createdAt
  {
    if n == 0 then None
    else
      var best := MinCreated(rows, ids, n - 1);
      if n - 1 in ids && (best.None? || rows[n - 1].createdAt < best.value) then Some(rows[n - 1].createdAt) else best
  }

  function QueueStats(rows: Rows, sessions: Sessions, lease: nat, env: string, now: int): Stats {
    var cutoff := Cutoff(now, lease);
    Stats(|Ready(rows, sessions, env, cutoff)|, |Leased(rows, sessions, env, cutoff)|,
          MinCreated(rows, Live(rows, sessions, env), |rows|))
  }

  /** Depth and pending split the live queued rows. */
  lemma StatsPartition(rows: Rows, sessions: Sessions, lease: nat, env: string, now: int)
    ensures var stats := QueueStats(rows, sessions, lease, env, now);
      stats.depth + stats.pending == |Live(rows, sessions, env)|
  {
    var cutoff := Cutoff(now, lease);
    var a, b := Ready(rows, sessions, env, cutoff), Leased(rows, sessions, env, cutoff);
    assert a + b == Live(rows, sessions, env) && a !! b;
  }

  /** Queued, not stopped, and of a session of the environment that has not ended. */
  predicate Queuing(rows: Rows, sessions: Sessions, env: string, i: nat) {
    && i < |rows| && rows[i].status == Queued && rows[i].stoppedAt.None?
    && var id := rows[i].session;
    id in sessions && sessions[id].environment == env && !Terminal(sessions[id].status)
  }

  /** `oldestQueuedAt` is the age of the oldest of them, leased or not. */
  lemma OldestQueuedIs(rows: Rows, sessions: Sessions, lease: nat, env: string, now: int)
    ensures var oldest := QueueStats(rows, sessions, lease, env, now).oldestQueuedAt;
      && (oldest.None? <==> forall i: nat :: !Queuing(rows, sessions, env, i))
      && (oldest.Some? ==>
            && (exists i: nat :: Queuing(rows, sessions, env, i) && rows[i].createdAt == oldest.value)
            && forall i: nat :: Queuing(rows, sessions, env, i) ==> oldest.value <= rows[i].createdAt)
  {
    var live := Live(rows, sessions, env);
    assert forall i: nat :: i in live <==> Queuing(rows, sessions, env, i);
  }

  /** Environment-scoped default claims, one after another, all at one instant. */
  function Drain(rows: Rows, sessions: Sessions, lease: nat, env: string, workers: seq<WorkerId>, now: int)
    : (answers: seq<Option<nat>>)
    ensures |answers| == |workers|
    decreases |workers|
  {
    if workers == [] then []
    else
      var (out, answer) :=
        ClaimOp(rows, sessions, lease, workers[0], Scope(None, Some(env)), lease, Readings(now, now, now));
      [answer] + Drain(out, sessions, lease, env, workers[1..], now)
  }

  /** One such claim hands out the oldest ready row, or finds none. It takes the row out of the
      ready set exactly when the lease reaches back over the second it is taken in. */
  lemma OneClaim(rows: Rows, sessions: Sessions, lease: nat, env: string, worker: WorkerId, now: int)
    requires env != ""
    ensures var cutoff := Cutoff(now, lease);
      var ready := Ready(rows, sessions, env, cutoff);
      var (out, answer) :=
        ClaimOp(rows, sessions, lease, worker, Scope(None, Some(env)), lease, Readings(now, now, now));
      && (forall i: nat :: i < |rows| ==> out[i].createdAt == rows[i].createdAt)
      && (answer.None? <==> ready == {})
      && (answer.Some? ==>
            && answer.value in ready
            && Ready(out, sessions, env, cutoff) == (if lease > now % 1000 then ready - {answer.value} else ready)
            && forall j :: j in ready && j != answer.value ==> Before(rows, answer.value, j))
      && (answer.None? ==> Ready(out, sessions, env, cutoff) == {})
  {
    var cutoff := Cutoff(now, lease);
    var swept := Sweep(rows, cutoff);
    var ready := Ready(rows, sessions, env, cutoff);
    assert Ready(swept, sessions, env, cutoff) == ready;
    var scope := Scope(None, Some(env));
    forall i: nat | i < |rows| ensures Selects(sessions, scope, cutoff)(swept[i]) <==> i in ready {
    }
    assert Sec(now) > cutoff <==> lease > now % 1000;
    var found := Oldest(swept, Selects(sessions, scope, cutoff));
    if found.Some? {
      var out := swept[found.value := ClaimRow(swept[found.value], worker, now)];
      assert Ready(out, sessions, env, cutoff) == if lease > now % 1000 then ready - {found.value} else ready;
      forall j | j in ready && j != found.value ensures Before(rows, found.value, j) {
        assert Before(swept, found.value, j);
      }
    }
  }

  /** The answers hand out all of `ready`, oldest first, and are null from then on. */
  ghost predicate HandsOutInOrder(rows: Rows, ready: set<nat>, answers: seq<Option<nat>>) {
    && (forall i :: i in ready ==> i < |rows|)
    && (forall j :: 0 <= j < |answers| ==> (answers[j].Some? <==> j < |ready|))
    && (forall j :: 0 <= j < |answers| && j < |ready| ==> answers[j].value in ready)
    && (forall j, k :: 0 <= j < k < |answers| && k < |ready| ==> Before(rows, answers[j].value, answers[k].value))
    && (|answers| >= |ready| ==> forall i :: i in ready ==> Some(i) in answers)
  }

  lemma OneMoreInOrder(rows: Rows, out: Rows, ready: set<nat>, answer: Option<nat>, rest: seq<Option<nat>>)
    requires |out| == |rows| && forall i: nat :: i < |rows| ==> out[i].createdAt == rows[i].createdAt
    requires forall i :: i in ready ==> i < |rows|
    requires if answer.None? then ready == {} && HandsOutInOrder(out, {}, rest)
             else && answer.value in ready && HandsOutInOrder(out, ready - {answer.value}, rest)
                  && forall j :: j in ready && j != answer.value ==> Before(rows, answer.value, j)
    ensures HandsOutInOrder(rows, ready, [answer] + rest)
  {
  }

  /** Exactly `depth` successive claims succeed, oldest row first; then every claim is null.
      The lease only has to reach back over the second it is taken in, as any lease of a
      second or more does at every instant. */
  lemma {:induction false} ClaimsDrainDepth(rows: Rows, sessions: Sessions, lease: nat, env: string,
                                            workers: seq<WorkerId>, now: int)
    requires env != "" && lease > now % 1000
    ensures var ready := Ready(rows, sessions, env, Cutoff(now, lease));
      && QueueStats(rows, sessions, lease, env, now).depth == |ready|
      && HandsOutInOrder(rows, ready, Drain(rows, sessions, lease, env, workers, now))
    decreases |workers|
  {
    if workers != [] {
      var (out, answer) :=
        ClaimOp(rows, sessions, lease, workers[0], Scope(None, Some(env)), lease, Readings(now, now, now));
      OneClaim(rows, sessions, lease, env, workers[0], now);
      ClaimsDrainDepth(out, sessions, lease, env, workers[1..], now);
      OneMoreInOrder(rows, out, Ready(rows, sessions, env, Cutoff(now, lease)), answer,
                     Drain(out, sessions, lease, env, workers[1..], now));
    }
  }

  /** A lease that does not reach back that far lapses as it is taken: whatever else is queued,
      the oldest ready row is handed out again and again. */
  lemma {:induction false} SubSecondLeaseNeverDrains(rows: Rows, sessions: Sessions, lease: nat, env: string,
                                                     workers: seq<WorkerId>, now: int, oldest: nat)
    requires env != "" && lease <= now % 1000
    requires var ready := Ready(rows, sessions, env, Cutoff(now, lease));
      oldest in ready && forall j :: j in ready && j != oldest ==> Before(rows, oldest, j)
    ensures forall j :: 0 <= j < |workers| ==> Drain(rows, sessions, lease, env, workers, now)[j] == Some(oldest)
    decreases |workers|
  {
    if workers != [] {
      var (out, answer) :=
        ClaimOp(rows, sessions, lease, workers[0], Scope(None, Some(env)), lease, Readings(now, now, now));
      OneClaim(rows, sessions, lease, env, workers[0], now);
      assert answer == Some(oldest);
      SubSecondLeaseNeverDrains(out, sessions, lease, env, workers[1..], now, oldest);
    }
  }

  /** So the counter and the claims agree, at an instant and for any queue, if and only if the
      lease reaches back over the current second or nothing is ready. */
  lemma ClaimsAgreeExactlyWhen(rows: Rows, sessions: Sessions, lease: nat, env: string, workers: seq<WorkerId>,
                               now: int)
    requires env != "" && |workers| > QueueStats(rows, sessions, lease, env, now).depth
    ensures var ready := Ready(rows, sessions, env, Cutoff(now, lease));
      HandsOutInOrder(rows, ready, Drain(rows, sessions, lease, env, workers, now))
      <==> lease > now % 1000 || ready == {}
  {
    var ready := Ready(rows, sessions, env, Cutoff(now, lease));
    if lease > now % 1000 {
      ClaimsDrainDepth(rows, sessions, lease, env, workers, now);
    } else if ready == {} {
      NothingToHandOut(rows, sessions, lease, env, workers, now);
    } else {
      var oldest := OldestReady(rows, sessions, lease, env, workers[0], now);
      SubSecondLeaseNeverDrains(rows, sessions, lease, env, workers, now, oldest);
      TooManyAnswers(rows, ready, Drain(rows, sessions, lease, env, workers, now));
    }
  }

  lemma OldestReady(rows: Rows, sessions: Sessions, lease: nat, env: string, worker: WorkerId, now: int)
    returns (oldest: nat)
    requires env != "" && Ready(rows, sessions, env, Cutoff(now, lease)) != {}
    ensures var ready := Ready(rows, sessions, env, Cutoff(now, lease));
      oldest in ready && forall j :: j in ready && j != oldest ==> Before(rows, oldest, j)
  {
    OneClaim(rows, sessions, lease, env, worker, now);
    oldest := ClaimOp(rows, sessions, lease, worker, Scope(None, Some(env)), lease, Readings(now, now, now)).1.value;
  }

  lemma TooManyAnswers(rows: Rows, ready: set<nat>, answers: seq<Option<nat>>)
    requires |answers| > |ready| && answers[|ready|].Some?
    ensures !HandsOutInOrder(rows, ready, answers)
  {
  }

  lemma {:induction false} NothingToHandOut(rows: Rows, sessions: Sessions, lease: nat, env: string,
                                            workers: seq<WorkerId>, now: int)
    requires env != "" && Ready(rows, sessions, env, Cutoff(now, lease)) == {}
    ensures HandsOutInOrder(rows, {}, Drain(rows, sessions, lease, env, workers, now))
    decreases |workers|
  {
    if workers != [] {
      var out := ClaimOp(rows, sessions, lease, workers[0], Scope(None, Some(env)), lease, Readings(now, now, now)).0;
      OneClaim(rows, sessions, lease, env, workers[0], now);
      NothingToHandOut(out, sessions, lease, env, workers[1..], now);
    }
  }
}
