/** What each column of a row records, and what each answer of the queue means, in every reachable
    configuration. */
module QueueLaws {
  import opened Wrappers
  import opened WorkRows
  import opened RowHistory
  import opened Protocol
  import opened RunTruths
  import opened Queue

  /** The session has ended: it is in one of six statuses. */
  predicate Over(sessions: Sessions, id: SessionId) {
    id in sessions && sessions[id].status in {SCompleted, SFailed, SCancelled, STimedOut, SCleanupPending, SArchived}
  }

  lemma OverIsEnded(sessions: Sessions, id: SessionId)
    ensures Over(sessions, id) <==> Ended(sessions, id)
  {
    if id in sessions {
      var status := sessions[id].status;
      if !Over(sessions, id) { assert SFailed in Transitions(status); }
    }
  }

  /** From which statuses a session may become another. */
  function Sources(t: SessionStatus): set<SessionStatus> {
    match t
    case SQueued => {}
    case SRunning => {SQueued, SRetrying, SPaused, SRequiresAction}
    case SRetrying => {SRunning}
    case SPaused => {SRunning, SRetrying}
    case SRequiresAction => {SRunning}
    case SCompleted => {SQueued, SRunning, SPaused, SRequiresAction}
    case SFailed => {SQueued, SRunning, SRetrying, SPaused, SRequiresAction}
    case SCancelled => {SQueued, SRunning, SRetrying, SPaused, SRequiresAction}
    case STimedOut => {SQueued, SRunning, SRetrying, SRequiresAction}
    case SCleanupPending => {SQueued, SRunning}
    case SArchived => {SQueued, SRunning, SPaused, SRequiresAction}
  }

  lemma TransitionsAre(a: SessionStatus, b: SessionStatus)
    ensures b in Transitions(a) <==> a in Sources(b)
  {
  }

  // ----- columns -----

  /** The holder: set by the claim that hands the row out, or by a heartbeat that answers while the
      row has none. */
  lemma HolderColumn(rows: Rows, sessions: Sessions, lease: nat, op: Op, i: nat)
    requires i < |Apply(rows, sessions, lease, op).0|
    ensures var (out, answer) := Apply(rows, sessions, lease, op);
      out[i].claimedBy ==
      if answer == Handed(Some(i)) then Some(op.worker)
      else if i >= |rows| then None
      else if op.HeartbeatScoped? && op.id == i && answer.beat.Beat? && rows[i].claimedBy.None? then op.caller
      else rows[i].claimedBy
  {
  }

  /** The status: `accepted` by an acceptance, an outcome by a completion, `unknown` by a claim's
      sweep, which looks at the queue's own lease and not at the claim's window. */
  lemma StatusColumn(rows: Rows, sessions: Sessions, lease: nat, op: Op, i: nat)
    requires i < |Apply(rows, sessions, lease, op).0|
    ensures var (out, answer) := Apply(rows, sessions, lease, op);
      out[i].status ==
      if i >= |rows| then Queued
      else if answer == OnAccept(AcceptedNow) && op.id == i then Accepted
      else if answer == OnComplete(Completed) && op.id == i then (if op.failed then Failed else Applied)
      else if op.Claim? && rows[i].status == Accepted && rows[i].stoppedAt.None? && rows[i].claimedAt.Some?
              && rows[i].claimedAt.value <= Cutoff(op.at.sweep, lease) then Unknown
      else rows[i].status
  {
  }

  /** The stop: set once, by a stop of the session or the item while no outcome is recorded, or at
      the enqueue for a session that has ended. */
  lemma StopColumn(rows: Rows, sessions: Sessions, lease: nat, op: Op, i: nat)
    requires i < |Apply(rows, sessions, lease, op).0|
    ensures var out := Apply(rows, sessions, lease, op).0;
      out[i].stoppedAt ==
      if i >= |rows| then (if Over(sessions, op.session) then Some(Sec(op.now)) else None)
      else if rows[i].stoppedAt.None? && (rows[i].status == Queued || rows[i].status == Accepted)
              && ((op.Stop? && op.session == rows[i].session) || (op.StopItem? && op.id == i)) then Some(Sec(op.now))
      else rows[i].stoppedAt
  {
    if op.Enqueue? { OverIsEnded(sessions, op.session); }
  }

  /** The outcome: set by a completion, to what it reported. */
  lemma ResultColumns(rows: Rows, sessions: Sessions, lease: nat, op: Op, i: nat)
    requires i < |Apply(rows, sessions, lease, op).0|
    ensures var (out, answer) := Apply(rows, sessions, lease, op);
      if answer == OnComplete(Completed) && op.id == i
      then out[i].result == Some(op.result) && out[i].completedAt == Some(Sec(op.now))
      else if i < |rows| then out[i].result == rows[i].result && out[i].completedAt == rows[i].completedAt
      else out[i].result.None? && out[i].completedAt.None?
  {
  }

  /** The notes: a hand-out clears all three; otherwise an acceptance, a wait that gives up on a row
      that is queued, and a heartbeat on the official wire write one each. */
  lemma NoteColumns(rows: Rows, sessions: Sessions, lease: nat, op: Op, i: nat)
    requires AllWf(rows) && i < |Apply(rows, sessions, lease, op).0|
    ensures var (out, answer) := Apply(rows, sessions, lease, op);
      if answer == Handed(Some(i)) || i >= |rows|
      then out[i].acceptedAt.None? && out[i].abandonedAt.None? && out[i].heartbeatAt.None?
      else
        && out[i].acceptedAt == (if answer == OnAccept(AcceptedNow) && op.id == i then Some(Sec(op.now))
                                 else rows[i].acceptedAt)
        && out[i].abandonedAt == (if op.GiveUp? && op.id == i && rows[i].status == Queued && rows[i].stoppedAt.None?
                                     && rows[i].abandonedAt.None? then Some(Sec(op.now)) else rows[i].abandonedAt)
        && out[i].heartbeatAt == (if op.HeartbeatScoped? && op.id == i && answer.beat.Beat? then Some(Sec(op.now))
                                  else rows[i].heartbeatAt)
  {
  }

  /** A row's session and age are its own; a new row is the last one. */
  lemma FixedColumns(rows: Rows, sessions: Sessions, lease: nat, op: Op, i: nat)
    requires i < |Apply(rows, sessions, lease, op).0|
    ensures var (out, answer) := Apply(rows, sessions, lease, op);
      && |out| == |rows| + (if op.Enqueue? then 1 else 0)
      && (op.Enqueue? ==> answer == Enqueued(|rows|))
      && (if i < |rows| then out[i].session == rows[i].session && out[i].createdAt == rows[i].createdAt
          else out[i].session == op.session && out[i].createdAt == Sec(op.now))
  {
  }

  // ----- claims -----

  /** The row waits for a claim: queued, not stopped, its session not over, and without a lease or
      with one that was renewed a window ago. */
  predicate Waiting(c: Config, i: nat, window: nat, now: int) {
    && i < |c.rows| && c.rows[i].status == Queued && c.rows[i].stoppedAt.None?
    && !Over(c.sessions, c.rows[i].session)
    && LapsedBy(c, i, window, now)
  }

  predicate LapsedBy(c: Config, i: nat, window: nat, now: int) {
    i in c.history.renewedAt ==> c.history.renewedAt[i] - c.history.renewedAt[i] % 1000 + window <= now
  }

  /** Inside what the claim asks for: an absent or empty argument asks for nothing. */
  predicate AskedFor(c: Config, i: nat, scope: Scope)
    requires i < |c.rows|
  {
    var session := c.rows[i].session;
    && (scope.session.None? || scope.session == Some("") || scope.session == Some(session))
    && (scope.environment.None? || scope.environment == Some("")
        || (session in c.sessions && scope.environment == Some(c.sessions[session].environment)))
  }

  predicate Candidate(c: Config, i: nat, scope: Scope, window: nat, now: int) {
    Waiting(c, i, window, now) && AskedFor(c, i, scope)
  }

  /** And no candidate is older; of those of the same second, none was enqueued earlier. */
  ghost predicate FirstCandidate(c: Config, i: nat, scope: Scope, window: nat, now: int) {
    && Candidate(c, i, scope, window, now)
    && forall j: nat :: j != i && Candidate(c, j, scope, window, now) ==>
         c.rows[i].createdAt < c.rows[j].createdAt || (c.rows[i].createdAt == c.rows[j].createdAt && i < j)
  }

  lemma LapsedIsLeaseOut(c: Config, i: nat, window: nat, now: int)
    requires LeaseInv(c.rows, c.history) && i < |c.rows|
    ensures LapsedBy(c, i, window, now) <==> LeaseOut(c.rows[i], Cutoff(now, window))
  {
    if i in c.history.renewedAt { FlooredLease(c.history.renewedAt[i], window, now); }
  }

  lemma CandidateIsSelected(c: Config, lease: nat, sweep: int, i: nat, scope: Scope, window: nat, now: int)
    requires LeaseInv(c.rows, c.history) && i < |c.rows|
    ensures Candidate(c, i, scope, window, now)
       <==> Selects(c.sessions, scope, Cutoff(now, window))(Sweep(c.rows, Cutoff(sweep, lease))[i])
  {
    LapsedIsLeaseOut(c, i, window, now);
    OverIsEnded(c.sessions, c.rows[i].session);
  }

  /** In every reachable configuration a claim, whatever it asks for and whatever its clock readings
      are, hands out the first candidate, unless by the last reading its lease has not lapsed; and
      nothing otherwise. */
  lemma ClaimHandsOutExactly(s: Setting, c: Config, op: Op, i: nat)
    requires Reachable(s, c) && op.Claim?
    ensures Apply(c.rows, c.sessions, s.lease, op).1 == Handed(Some(i))
       <==> FirstCandidate(c, i, op.scope, op.reclaim, op.at.select) && LapsedBy(c, i, op.reclaim, op.at.update)
  {
    ReachableKeeps(s, c);
    ClaimPicksFirst(c, s.lease, op);
    var swept := Sweep(c.rows, Cutoff(op.at.sweep, s.lease));
    var found := Oldest(swept, Selects(c.sessions, op.scope, Cutoff(op.at.select, op.reclaim)));
    if found.Some? { ClaimTakesLapsed(c, s.lease, op, found.value); }
  }

  lemma ClaimPicksFirst(c: Config, lease: nat, op: Op)
    requires LeaseInv(c.rows, c.history) && op.Claim?
    ensures var swept := Sweep(c.rows, Cutoff(op.at.sweep, lease));
      var found := Oldest(swept, Selects(c.sessions, op.scope, Cutoff(op.at.select, op.reclaim)));
      && (found.None? ==> forall i: nat :: !Candidate(c, i, op.scope, op.reclaim, op.at.select))
      && (found.Some? ==> FirstCandidate(c, found.value, op.scope, op.reclaim, op.at.select))
  {
    var swept := Sweep(c.rows, Cutoff(op.at.sweep, lease));
    var pick := Selects(c.sessions, op.scope, Cutoff(op.at.select, op.reclaim));
    var found := Oldest(swept, pick);
    forall i: nat | i < |c.rows| ensures Candidate(c, i, op.scope, op.reclaim, op.at.select) <==> pick(swept[i]) {
      CandidateIsSelected(c, lease, op.at.sweep, i, op.scope, op.reclaim, op.at.select);
    }
    if found.Some? {
      forall j: nat | j != found.value && Candidate(c, j, op.scope, op.reclaim, op.at.select)
        ensures c.rows[found.value].createdAt < c.rows[j].createdAt
                || (c.rows[found.value].createdAt == c.rows[j].createdAt && found.value < j)
      {
        assert pick(swept[j]) && Before(swept, found.value, j);
      }
    }
  }

  lemma ClaimTakesLapsed(c: Config, lease: nat, op: Op, i: nat)
    requires LeaseInv(c.rows, c.history) && op.Claim? && i < |c.rows|
    requires var swept := Sweep(c.rows, Cutoff(op.at.sweep, lease));
      Oldest(swept, Selects(c.sessions, op.scope, Cutoff(op.at.select, op.reclaim))) == Some(i)
    ensures Apply(c.rows, c.sessions, lease, op).1
         == Handed(if LapsedBy(c, i, op.reclaim, op.at.update) then Some(i) else None)
  {
    LapsedIsLeaseOut(c, i, op.reclaim, op.at.update);
  }

  /** Of all operations only a claim makes a row `unknown`: each accepted, unstopped row whose last
      renewal is the queue's lease back by the sweep's reading, whatever the claim asks for and
      whether or not it hands anything out. */
  lemma UnknownExactlyWhen(s: Setting, c: Config, op: Op, i: nat)
    requires Reachable(s, c) && i < |c.rows|
    ensures Apply(c.rows, c.sessions, s.lease, op).0[i].status == Unknown <==>
            || c.rows[i].status == Unknown
            || (&& op.Claim? && c.rows[i].status == Accepted && c.rows[i].stoppedAt.None?
                && i in c.history.renewedAt
                && c.history.renewedAt[i] - c.history.renewedAt[i] % 1000 + s.lease <= op.at.sweep)
  {
    ReachableKeeps(s, c);
    StatusColumn(c.rows, c.sessions, s.lease, op, i);
    if op.Claim? { LapsedIsLeaseOut(c, i, s.lease, op.at.sweep); }
  }

  /** What is enqueued waits at once, at any instant and for any window, exactly when its session is not over. */
  lemma EnqueuedWaits(s: Setting, c: Config, session: SessionId, at: int, window: nat, now: int)
    requires Reachable(s, c)
    ensures Waiting(Operate(s, c, Enqueue(session, at)), |c.rows|, window, now) <==> !Over(c.sessions, session)
  {
    ReachableKeeps(s, c);
    OverIsEnded(c.sessions, session);
  }

  // ----- acceptances and renewals -----

  /** The row has no outcome and was not given up. */
  predicate Unsettled(r: Row) {
    r.status == Queued || r.status == Accepted
  }

  /** An acceptance goes ahead exactly for the holder of an unsettled, unstopped row before its lease
      has lapsed; the refusals tell a lost lease from a row that is somebody else's or done. */
  lemma AcceptAnswers(s: Setting, c: Config, id: nat, w: WorkerId, now: int)
    requires Reachable(s, c)
    ensures Apply(c.rows, c.sessions, s.lease, Accept(id, w, now)).1 == OnAccept(
              if id >= |c.rows| then AcceptNotFound
              else if c.rows[id].stoppedAt.Some? then AcceptLeaseLost
              else if c.rows[id].claimedBy != Some(w) || !Unsettled(c.rows[id]) then AcceptNotHolder
              else if LapsedBy(c, id, s.lease, now) then AcceptLeaseLost
              else AcceptedNow)
  {
    ReachableKeeps(s, c);
    if id < |c.rows| { LapsedIsLeaseOut(c, id, s.lease, now); }
  }

  /** On the official wire the caller may be nameless; then only the lease counts. */
  lemma AcceptScopedAnswers(s: Setting, c: Config, id: nat, caller: Option<WorkerId>, now: int)
    requires Reachable(s, c)
    ensures Apply(c.rows, c.sessions, s.lease, AcceptScoped(id, caller, now)).1 == OnAccept(
              if id >= |c.rows| then AcceptNotFound
              else if c.rows[id].stoppedAt.Some? then AcceptLeaseLost
              else if Unsettled(c.rows[id]) && id in c.history.renewedAt && !LapsedBy(c, id, s.lease, now)
                      && (caller.None? || c.rows[id].claimedBy == caller) then AcceptedNow
              else if caller.Some? && caller.value != "" && c.rows[id].claimedBy.Some?
                      && c.rows[id].claimedBy.value != "" && c.rows[id].claimedBy != caller then AcceptNotHolder
              else AcceptLeaseLost)
  {
    ReachableKeeps(s, c);
    if id < |c.rows| { LapsedIsLeaseOut(c, id, s.lease, now); }
  }

  /** A renewal is granted to the holder of an unsettled, unstopped row, however late it comes. */
  lemma RenewalAnswers(rows: Rows, sessions: Sessions, lease: nat, id: nat, w: WorkerId, now: int)
    ensures Apply(rows, sessions, lease, Heartbeat(id, w, now)).1 == OnRenewal(
              if id >= |rows| then LeaseNotFound
              else if rows[id].stoppedAt.Some? then LeaseLost
              else if rows[id].claimedBy == Some(w) && Unsettled(rows[id]) then Renewed
              else LeaseNotHolder)
  {
  }

  /** The expected last heartbeat, if one is named, is the row's. */
  predicate Expects(r: Row, expected: Option<Expected>) {
    || expected.None?
    || (expected == Some(NoHeartbeat) && r.heartbeatAt.None?)
    || (r.heartbeatAt.Some? && expected == Some(Stamp(r.heartbeatAt.value)))
  }

  /** On the official wire the precondition is looked at first, and whoever names no worker, or finds
      no heartbeat where it expects none, needs not be the holder. */
  lemma BeatAnswers(rows: Rows, sessions: Sessions, lease: nat, id: nat, caller: Option<WorkerId>,
                    expected: Option<Expected>, now: int)
    ensures Apply(rows, sessions, lease, HeartbeatScoped(id, caller, expected, now)).1 == OnBeat(
              if id >= |rows| then BeatNotFound
              else if !Expects(rows[id], expected) then BeatPreconditionFailed
              else if rows[id].stoppedAt.Some? then BeatLeaseLost
              else if Unsettled(rows[id])
                      && (caller.None? || rows[id].claimedBy == caller || expected == Some(NoHeartbeat))
              then Beat(Sec(now))
              else BeatNotHolder)
  {
  }

  // ----- completions -----

  /** A completion is recorded for the holder of any unsettled row, stopped or not, accepted or only
      claimed, its lease lapsed or not; and for nobody else. */
  lemma CompletionAnswers(rows: Rows, sessions: Sessions, lease: nat, id: nat, w: WorkerId, result: string,
                          failed: bool, now: int)
    ensures Apply(rows, sessions, lease, Complete(id, w, result, failed, now)).1 == OnComplete(
              if id >= |rows| then CompleteNotFound
              else if rows[id].claimedBy == Some(w) && Unsettled(rows[id]) then Completed
              else CompleteNotHolder)
  {
  }

  /** A recorded completion is the row's outcome, the last of the completions, and told to the hook. */
  lemma CompletionIsRecorded(s: Setting, c: Config, op: Op)
    requires op.Complete? && op.id < |c.rows|
    requires c.rows[op.id].claimedBy == Some(op.worker) && Unsettled(c.rows[op.id])
    ensures var c' := Operate(s, c, op);
      && Apply(c.rows, c.sessions, s.lease, op).1 == OnComplete(Completed)
      && c'.history.completions == c.history.completions + [Completion(op.id, op.worker, op.result, op.failed)]
      && RecordedOn(c'.rows, Completion(op.id, op.worker, op.result, op.failed))
      && c'.history.hooked == c.history.hooked + [(op.id, c'.rows[op.id])]
      && |c'.rows| == |c.rows| && (forall i: nat :: i < |c.rows| && i != op.id ==> c'.rows[i] == c.rows[i])
  {
  }

  lemma RefusedCompletionChangesNothing(s: Setting, c: Config, op: Op)
    requires op.Complete? && op.id < |c.rows| && !Unsettled(c.rows[op.id])
    ensures Apply(c.rows, c.sessions, s.lease, op).1 == OnComplete(CompleteNotHolder) && Operate(s, c, op) == c
  {
  }

  /** What a poll loop executed it can report: the completion is recorded, as the row's outcome and in
      the hook's calls, exactly when the row has not been swept and nothing was recorded before. */
  lemma ExecutionIsRecorded(s: Setting, c: Config, e: Execution, result: string, failed: bool, now: int)
    requires Reachable(s, c) && e in c.history.executions
    ensures e.item < |c.rows|
    ensures var op := Complete(e.item, e.worker, result, failed, now);
      var answer, c' := Apply(c.rows, c.sessions, s.lease, op).1, Operate(s, c, op);
      if c.rows[e.item].status == Unknown || CompletedIn(c.history.completions, e.item)
      then answer == OnComplete(CompleteNotHolder) && c' == c
      else
        && answer == OnComplete(Completed)
        && c'.history.completions == c.history.completions + [Completion(e.item, e.worker, result, failed)]
        && RecordedOn(c'.rows, Completion(e.item, e.worker, result, failed))
        && c'.history.hooked == c.history.hooked + [(e.item, c'.rows[e.item])]
        && (forall i: nat :: i < |c.rows| && i != e.item ==> c'.rows[i] == c.rows[i])
  {
    assert Held(c.rows, e) by { ReachableKeeps(s, c); }
    assert Unsettled(c.rows[e.item]) <==>
           !(c.rows[e.item].status == Unknown || CompletedIn(c.history.completions, e.item)) by {
      StatusIsTrue(s, c, e.item);
    }
    var op := Complete(e.item, e.worker, result, failed, now);
    if Unsettled(c.rows[e.item]) {
      CompletionIsRecorded(s, c, op);
    } else {
      RefusedCompletionChangesNothing(s, c, op);
    }
  }

  // ----- waits -----

  /** Why a wait on an unfinished item ends, in terms of what happened: it was stopped; or nobody ever
      took or renewed a lease on it; or the outcome is not known. */
  lemma WaitCodeIs(s: Setting, c: Config, i: nat)
    requires Reachable(s, c) && i < |c.rows| && !Settled(c.rows[i])
    ensures WaitCodeFor(Some(c.rows[i])) ==
            if c.rows[i].stoppedAt.Some? then WorkLeaseLost
            else if i !in c.history.renewedAt then QueueTimeout
            else OutcomeUnknown
  {
    ReachableKeeps(s, c);
  }

  /** A wait that ends with the outcome unknown notes so on the row it read, while that is queued and
      carries no such note; any other wait changes nothing. */
  lemma WaitNote(s: Setting, c: Config, i: nat, now: int)
    requires Reachable(s, c) && i < |c.rows| && !Settled(c.rows[i])
    ensures var r, noted := c.rows[i], AfterWaitFailure(c.rows, i, Some(c.rows[i]), now);
      noted == if r.status == Queued && WaitCodeFor(Some(r)) == OutcomeUnknown && r.abandonedAt.None?
               then c.rows[i := r.(abandonedAt := Some(Sec(now)))] else c.rows
  {
    ReachableKeeps(s, c);
  }
}
