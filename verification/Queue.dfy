/** The queue object itself: each method runs the source's SQL statements, with
    three-valued conditions and set-level updates, and is proved to do what the
    row-level operation of the same name in WorkRows says. */
module Queue {
  import opened Wrappers
  import opened Basics
  import opened Sql
  import opened WorkRows

  const DEFAULT_WORK_LEASE_MS: nat := 60000

  /** `stopped_at IS NULL AND status = 'queued' AND (claimed_at IS NULL OR claimed_at <= cutoff)` */
  function RowClaimable(r: Row, cutoff: int): Tri {
    And(And(IsNull(r.stoppedAt), Eq(Some(r.status), Some(Queued))),
        Or(IsNull(r.claimedAt), Le(r.claimedAt, cutoff)))
  }

  /** `(SELECT status …)`: NULL when the session has no row. */
  function StatusOf(sessions: Sessions, id: SessionId): Option<SessionStatus> {
    if id in sessions then Some(sessions[id].status) else None
  }

  function TerminalStatuses(): set<SessionStatus> {
    set s: SessionStatus | Terminal(s)
  }

  /** `(status) IS NULL OR (status) NOT IN (terminal statuses)` */
  function SessionLive(sessions: Sessions, r: Row): Tri {
    var status := StatusOf(sessions, r.session);
    Or(IsNull(status), Not(In(status, TerminalStatuses())))
  }

  function ClaimableSql(sessions: Sessions, r: Row, cutoff: int): (t: Tri)
    ensures Holds(t) <==> Claimable(sessions, r, cutoff)
  {
    And(RowClaimable(r, cutoff), SessionLive(sessions, r))
  }

  /** `status IN ('queued', 'accepted')` */
  function OpenSql(r: Row): (t: Tri)
    ensures Holds(t) <==> Open(r)
  {
    In(Some(r.status), {Queued, Accepted})
  }

  /** The environment joined through the session: NULL when there is no such session. */
  function EnvironmentOf(sessions: Sessions, r: Row): Option<string> {
    if r.session in sessions then Some(sessions[r.session].environment) else None
  }

  /** The four WHERE clauses of a claim's selection: by session, environment, both or neither. */
  function CandidateSql(sessions: Sessions, r: Row, sessionId: Option<SessionId>, environmentId: Option<string>,
                        cutoff: int): (t: Tri)
    ensures Holds(t) <==> Claimable(sessions, r, cutoff) && InScope(sessions, r, Scope(sessionId, environmentId))
  {
    var claimable := ClaimableSql(sessions, r, cutoff);
    if Given(sessionId) then
      if Given(environmentId)
      then And(And(claimable, Eq(Some(r.session), sessionId)), Eq(EnvironmentOf(sessions, r), environmentId))
      else And(claimable, Eq(Some(r.session), sessionId))
    else if Given(environmentId)
    then And(claimable, Eq(EnvironmentOf(sessions, r), environmentId))
    else claimable
  }

  /** What one poll of a bounded wait sees: the row `get` returned and the clock after it. */
  datatype Poll = Poll(item: Option<Row>, at: int)

  datatype WaitCode = QueueTimeout | OutcomeUnknown | WorkLeaseLost

  datatype WaitOutcome = Result(value: Option<string>) | ItemFailed(value: Option<string>)
                       | TimedOut(code: WaitCode) | StillWaiting

  predicate Finished(item: Option<Row>) {
    item.Some? && (item.value.status == Applied || item.value.status == Failed)
  }

  function FinishedOutcome(item: Row): WaitOutcome {
    if item.status == Failed then ItemFailed(item.result) else Result(item.result)
  }

  /** Why a bounded wait ended without a result. */
  function WaitCodeFor(item: Option<Row>): WaitCode {
    if item.Some? && item.value.stoppedAt.Some? then WorkLeaseLost
    else if item.Some? && item.value.status == Queued && item.value.claimedAt.None? then QueueTimeout
    else OutcomeUnknown
  }

  /** A wait that ends on a delivered but unfinished item leaves a note on the row, nothing else. */
  function AfterWaitFailure(rows: Rows, id: nat, item: Option<Row>, now: int): Rows {
    if item.Some? && item.value.stoppedAt.None? && item.value.status == Queued && item.value.claimedAt.Some?
    then GiveUpOp(rows, id, now).0
    else rows
  }

  class WorkQueue {
    const leaseMs: nat
    var rows: Rows
    var sessions: Sessions
    /** The calls of `onItemCompleted`, oldest first. */
    var hooked: seq<HookCall>

    constructor (options: Option<real>)
      ensures leaseMs == PositiveFloor(options, DEFAULT_WORK_LEASE_MS)
      ensures rows == [] && sessions == map[] && hooked == []
    {
      leaseMs := PositiveFloor(options, DEFAULT_WORK_LEASE_MS);
      rows, sessions, hooked := [], map[], [];
    }

    /** Runs one UPDATE and reports `changes`. */
    method Run(where: (nat, Row) -> Tri, assign: Row -> Row) returns (changes: nat)
      modifies this`rows
      ensures rows == Update(old(rows), where, assign)
      ensures changes == |Matching(old(rows), where)|
    {
      changes := |Matching(rows, where)|;
      rows := Update(rows, where, assign);
    }

    method Get(id: nat) returns (item: Option<Row>)
      ensures item == if id < |rows| then Some(rows[id]) else None
    {
      item := if id < |rows| then Some(rows[id]) else None;
    }

    method EnqueueItem(session: SessionId, now: int) returns (id: nat)
      modifies this`rows
      ensures (rows, Enqueued(id)) == Apply(old(rows), sessions, leaseMs, Enqueue(session, now))
    {
      id := |rows|;
      var stopped := if Holds(In(StatusOf(sessions, session), TerminalStatuses())) then Some(Sec(now)) else None;
      rows := rows + [Row(session, Queued, None, None, Sec(now), None, None, stopped, None, None, None)];
    }

    /** The sweep of lapsed accepted claims, whatever session or environment they belong to. */
    method SweepLapsed(now: int)
      modifies this`rows
      ensures rows == Sweep(old(rows), Cutoff(now, leaseMs))
    {
      var cutoff := Cutoff(now, leaseMs);
      var _ := Run(
        (i, r: Row) => And(And(Eq(Some(r.status), Some(Accepted)), IsNull(r.stoppedAt)),
                           And(Not(IsNull(r.claimedAt)), Le(r.claimedAt, cutoff))),
        (r: Row) => r.(status := Unknown));
      assert rows == Sweep(old(rows), cutoff);
    }

    method SelectCandidate(sessionId: Option<SessionId>, environmentId: Option<string>, cutoff: int)
      returns (candidate: Option<nat>)
      ensures candidate == Oldest(rows, Selects(sessions, Scope(sessionId, environmentId), cutoff))
    {
      var live := sessions;
      candidate := Oldest(rows, (r: Row) => Holds(CandidateSql(live, r, sessionId, environmentId, cutoff)));
      OldestUnique(rows, (r: Row) => Holds(CandidateSql(live, r, sessionId, environmentId, cutoff)),
                   Selects(live, Scope(sessionId, environmentId), cutoff));
    }

    /** The guarded update: it carries the row's and the session's condition again. */
    method TakeLease(id: nat, worker: WorkerId, reclaim: nat, now: int) returns (changes: nat)
      requires id < |rows|
      modifies this`rows
      ensures changes == if Claimable(sessions, old(rows)[id], Cutoff(now, reclaim)) then 1 else 0
      ensures rows == if changes == 1 then old(rows)[id := ClaimRow(old(rows)[id], worker, now)] else old(rows)
    {
      var live := sessions;
      var cutoff := Cutoff(now, reclaim);
      var where := (i: nat, r: Row) => And(Eq(Some(i), Some(id)), ClaimableSql(live, r, cutoff));
      var assign := (r: Row) => r.(claimedBy := Some(worker), claimedAt := Some(Sec(now)),
                                   acceptedAt := None, abandonedAt := None, heartbeatAt := None);
      UpdateOne(rows, where, assign, id);
      changes := Run(where, assign);
    }

    method ClaimItem(worker: WorkerId, sessionId: Option<SessionId>, environmentId: Option<string>,
                     reclaimOlderThanMs: Option<real>, at: Readings)
      returns (item: Option<nat>)
      modifies this`rows
      ensures (rows, Handed(item))
           == Apply(old(rows), sessions, leaseMs,
                    Claim(worker, Scope(sessionId, environmentId), PositiveFloor(reclaimOlderThanMs, leaseMs), at))
    {
      var reclaim := PositiveFloor(reclaimOlderThanMs, leaseMs);
      SweepLapsed(at.sweep);
      var candidate := SelectCandidate(sessionId, environmentId, Cutoff(at.select, reclaim));
      if candidate.None? {
        return None;
      }
      var changes := TakeLease(candidate.value, worker, reclaim, at.update);
      if changes != 1 {
        return None;
      }
      item := candidate;
    }

    method CompleteItem(id: nat, worker: WorkerId, result: string, failed: bool, now: int)
      returns (answer: CompleteAnswer)
      modifies this`rows, this`hooked
      ensures (rows, OnComplete(answer))
           == Apply(old(rows), sessions, leaseMs, Complete(id, worker, result, failed, now))
      ensures answer == Completed ==> HookOf(rows, Complete(id, worker, result, failed, now), OnComplete(answer)).Some?
      ensures var hook := HookOf(rows, Complete(id, worker, result, failed, now), OnComplete(answer));
        hooked == if hook.Some? then old(hooked) + [hook.value] else old(hooked)
    {
      var where := (i: nat, r: Row) => And(And(Eq(Some(i), Some(id)), OpenSql(r)), Eq(r.claimedBy, Some(worker)));
      var assign := (r: Row) => r.(status := if failed then Failed else Applied,
                                   result := Some(result), completedAt := Some(Sec(now)));
      UpdateOne(rows, where, assign, id);
      var changes := Run(where, assign);
      if changes == 1 {
        var item := Get(id);
        if item.Some? {
          hooked := hooked + [(id, item.value)];
        }
        return Completed;
      }
      var item := Get(id);
      answer := if item.Some? then CompleteNotHolder else CompleteNotFound;
    }

    method RenewItem(id: nat, worker: WorkerId, now: int) returns (answer: LeaseAnswer)
      modifies this`rows
      ensures (rows, OnRenewal(answer)) == Apply(old(rows), sessions, leaseMs, Heartbeat(id, worker, now))
    {
      var where := (i: nat, r: Row) =>
        And(And(Eq(Some(i), Some(id)), OpenSql(r)), And(Eq(r.claimedBy, Some(worker)), IsNull(r.stoppedAt)));
      var assign := (r: Row) => r.(claimedAt := Some(Sec(now)));
      UpdateOne(rows, where, assign, id);
      var changes := Run(where, assign);
      if changes == 1 {
        return Renewed;
      }
      var row := Get(id);
      if row.None? {
        return LeaseNotFound;
      }
      answer := if row.value.stoppedAt.Some? then LeaseLost else LeaseNotHolder;
    }

    method AcceptItem(id: nat, worker: WorkerId, now: int) returns (answer: AcceptAnswer)
      modifies this`rows
      ensures (rows, OnAccept(answer)) == Apply(old(rows), sessions, leaseMs, Accept(id, worker, now))
    {
      var cutoff := Cutoff(now, leaseMs);
      var where := (i: nat, r: Row) =>
        And(And(And(Eq(Some(i), Some(id)), OpenSql(r)), And(Eq(r.claimedBy, Some(worker)), IsNull(r.stoppedAt))),
            And(Not(IsNull(r.claimedAt)), Gt(r.claimedAt, cutoff)));
      var assign := (r: Row) => r.(acceptedAt := Some(Sec(now)), status := Accepted);
      UpdateOne(rows, where, assign, id);
      var changes := Run(where, assign);
      if changes == 1 {
        return AcceptedNow;
      }
      var row := Get(id);
      if row.None? {
        return AcceptNotFound;
      }
      if row.value.stoppedAt.Some? {
        return AcceptLeaseLost;
      }
      if row.value.claimedBy == Some(worker) && (row.value.status == Queued || row.value.status == Accepted) {
        return AcceptLeaseLost;
      }
      answer := AcceptNotHolder;
    }

    method AcceptItemScoped(id: nat, worker: Option<WorkerId>, now: int) returns (answer: AcceptAnswer)
      modifies this`rows
      ensures (rows, OnAccept(answer)) == Apply(old(rows), sessions, leaseMs, AcceptScoped(id, worker, now))
    {
      var cutoff := Cutoff(now, leaseMs);
      var where := (i: nat, r: Row) =>
        And(And(And(Eq(Some(i), Some(id)), OpenSql(r)), IsNull(r.stoppedAt)),
            And(And(Not(IsNull(r.claimedAt)), Gt(r.claimedAt, cutoff)),
                Or(IsNull(worker), Eq(r.claimedBy, worker))));
      var assign := (r: Row) => r.(acceptedAt := Some(Sec(now)), status := Accepted);
      UpdateOne(rows, where, assign, id);
      var changes := Run(where, assign);
      if changes == 1 {
        return AcceptedNow;
      }
      var row := Get(id);
      if row.None? {
        return AcceptNotFound;
      }
      if row.value.stoppedAt.Some? {
        return AcceptLeaseLost;
      }
      if Given(worker) && Given(row.value.claimedBy) && row.value.claimedBy != worker {
        return AcceptNotHolder;
      }
      answer := AcceptLeaseLost;
    }

    method RenewItemScoped(id: nat, worker: Option<WorkerId>, expected: Option<Expected>, now: int)
      returns (answer: BeatAnswer)
      modifies this`rows
      ensures (rows, OnBeat(answer))
           == Apply(old(rows), sessions, leaseMs, HeartbeatScoped(id, worker, expected, now))
    {
      var sentinel := Eq(expected, Some(NoHeartbeat));
      var where := (i: nat, r: Row) =>
        And(And(And(Eq(Some(i), Some(id)), OpenSql(r)), IsNull(r.stoppedAt)),
            And(Or(Or(IsNull(worker), Eq(r.claimedBy, worker)), And(IsNull(r.heartbeatAt), sentinel)),
                Or(Or(IsNull(expected), And(sentinel, IsNull(r.heartbeatAt))),
                   Eq(Rendered(r.heartbeatAt), expected))));
      var assign := (r: Row) =>
        r.(claimedAt := Some(Sec(now)), heartbeatAt := Some(Sec(now)),
           claimedBy := if Holds(And(IsNull(r.claimedBy), Not(IsNull(worker)))) then worker else r.claimedBy);
      UpdateOne(rows, where, assign, id);
      var changes := Run(where, assign);
      if changes == 1 {
        var row := Get(id);
        return Beat(row.value.heartbeatAt.value);
      }
      var row := Get(id);
      if row.None? {
        return BeatNotFound;
      }
      if expected.Some? {
        var matched := if expected.value == NoHeartbeat then row.value.heartbeatAt.None?
                       else row.value.heartbeatAt.Some? && Stamp(row.value.heartbeatAt.value) == expected.value;
        if !matched {
          return BeatPreconditionFailed;
        }
      }
      answer := if row.value.stoppedAt.Some? then BeatLeaseLost else BeatNotHolder;
    }

    method StopSession(session: SessionId, now: int) returns (marked: nat)
      modifies this`rows
      ensures (rows, Silent) == Apply(old(rows), sessions, leaseMs, Stop(session, now))
      ensures marked == |set i: nat | i < |old(rows)| && old(rows)[i].session == session && Stoppable(old(rows)[i])|
    {
      var where := (i: nat, r: Row) =>
        And(And(Eq(Some(r.session), Some(session)), OpenSql(r)), IsNull(r.stoppedAt));
      marked := Run(where, (r: Row) => r.(stoppedAt := Some(Sec(now))));
      assert Matching(old(rows), where)
          == set i: nat | i < |old(rows)| && old(rows)[i].session == session && Stoppable(old(rows)[i]);
      assert rows == StopOp(old(rows), session, now);
    }

    method StopOne(id: nat, now: int) returns (found: bool)
      modifies this`rows
      ensures (rows, found) == StopItemOp(old(rows), id, now)
      ensures found <==> id < |rows|
    {
      var where := (i: nat, r: Row) => And(And(Eq(Some(i), Some(id)), IsNull(r.stoppedAt)), OpenSql(r));
      var assign := (r: Row) => r.(stoppedAt := Some(Sec(now)));
      UpdateOne(rows, where, assign, id);
      var changes := Run(where, assign);
      if changes == 1 {
        return true;
      }
      var row := Get(id);
      found := row.Some?;
    }

    method RecordGiveUp(id: nat, now: int) returns (recorded: bool)
      modifies this`rows
      ensures (rows, recorded) == GiveUpOp(old(rows), id, now)
      ensures recorded <==>
              && id < |rows| && old(rows)[id].status == Queued && old(rows)[id].stoppedAt.None?
              && old(rows)[id].abandonedAt.None? && old(rows)[id].acceptedAt.None?
    {
      var where := (i: nat, r: Row) =>
        And(And(Eq(Some(i), Some(id)), Eq(Some(r.status), Some(Queued))),
            And(IsNull(r.stoppedAt), And(IsNull(r.abandonedAt), IsNull(r.acceptedAt))));
      var assign := (r: Row) => r.(abandonedAt := Some(Sec(now)));
      UpdateOne(rows, where, assign, id);
      var changes := Run(where, assign);
      recorded := changes == 1;
    }

    method WaitFailure(id: nat, item: Option<Row>, now: int) returns (code: WaitCode)
      modifies this`rows
      ensures code == WaitCodeFor(item)
      ensures rows == AfterWaitFailure(old(rows), id, item, now)
    {
      if item.Some? && item.value.stoppedAt.Some? {
        return WorkLeaseLost;
      }
      if item.Some? && item.value.status == Queued && item.value.claimedAt.None? {
        return QueueTimeout;
      }
      if item.Some? && item.value.status == Queued && item.value.claimedAt.Some? {
        var _ := RecordGiveUp(id, now);
      }
      code := OutcomeUnknown;
    }

    /** The polling loop of a bounded wait, over what its polls saw. A result that a poll
        sees wins even when that poll is past the deadline; the wait times out only at a
        poll past the deadline with every poll up to it unfinished. */
    method Await(id: nat, started: int, timeoutMs: int, polls: seq<Poll>) returns (outcome: WaitOutcome, used: nat)
      modifies this`rows
      ensures used <= |polls|
      ensures forall k :: 0 <= k < used - 1 ==> !Finished(polls[k].item) && polls[k].at <= started + timeoutMs
      ensures outcome == StillWaiting ==>
                forall k :: 0 <= k < |polls| ==> !Finished(polls[k].item) && polls[k].at <= started + timeoutMs
      ensures outcome != StillWaiting ==> used > 0
      ensures outcome.Result? || outcome.ItemFailed? ==>
                Finished(polls[used - 1].item) && outcome == FinishedOutcome(polls[used - 1].item.value)
      ensures outcome.TimedOut? ==>
                && !Finished(polls[used - 1].item) && polls[used - 1].at > started + timeoutMs
                && outcome.code == WaitCodeFor(polls[used - 1].item)
                && rows == AfterWaitFailure(old(rows), id, polls[used - 1].item, polls[used - 1].at)
      ensures !outcome.TimedOut? ==> rows == old(rows)
    {
      var deadline := started + timeoutMs;
      used := 0;
      while used < |polls|
        invariant used <= |polls|
        invariant rows == old(rows)
        invariant forall k :: 0 <= k < used ==> !Finished(polls[k].item) && polls[k].at <= deadline
      {
        var poll := polls[used];
        used := used + 1;
        if Finished(poll.item) {
          outcome := FinishedOutcome(poll.item.value);
          return;
        }
        if poll.at > deadline {
          var code := WaitFailure(id, poll.item, poll.at);
          outcome := TimedOut(code);
          return;
        }
      }
      outcome := StillWaiting;
    }
  }

  /** `REPLACE(heartbeat_at, ' ', 'T') || 'Z'`: NULL stays NULL. */
  function Rendered(heartbeatAt: Option<int>): Option<Expected> {
    if heartbeatAt.None? then None else Some(Stamp(heartbeatAt.value))
  }

  /** Two conditions that agree on every row select the same oldest row. */
  lemma OldestUnique(rows: Rows, p: Row -> bool, q: Row -> bool)
    requires forall r: Row :: p(r) == q(r)
    ensures Oldest(rows, p) == Oldest(rows, q)
  {
  }
}
