/** The queue delivers: an item that is next for a claim is handed out, accepted, executed, reported
    and recorded, when the requests of one idle worker are served within the lease. */
module Delivery {
  import opened Wrappers
  import opened WorkRows
  import opened RowHistory
  import opened Protocol
  import opened RunTruths
  import opened QueueLaws

  /** The worker waits for the answer to its last request. */
  predicate Asked(c: Config, w: WorkerId, request: Request, phase: Phase) {
    c.sent != [] && c.sent[|c.sent| - 1] == Envelope(w, request) && PhaseOf(c, w) == phase
  }

  /** What serving that request leaves alone. */
  predicate SameBut(c: Config, c': Config, i: nat) {
    && c'.sent == c.sent && c'.phases == c.phases && c'.sessions == c.sessions
    && c'.history.executions == c.history.executions && i < |c.rows| == |c'.rows|
  }

  lemma ClaimServed(s: Setting, c: Config, w: WorkerId, scope: Scope, i: nat, at: Readings)
    requires Reachable(s, c) && c.sent != [] && Asked(c, w, ClaimReq(scope), AwaitClaim(|c.sent| - 1))
    requires FirstCandidate(c, i, scope, s.lease, at.select) && LapsedBy(c, i, s.lease, at.update)
    ensures var c' := Next(s, c, Serve(|c.sent| - 1, at));
      && SameBut(c, c', i)
      && c'.history.completions == c.history.completions && c'.history.hooked == c.history.hooked
      && (|c.sent| - 1, Handed(Some(i))) in c'.replies
      && c'.rows[i].status == Queued && c'.rows[i].stoppedAt.None? && c'.rows[i].claimedBy == Some(w)
      && i in c'.history.renewedAt && c'.history.renewedAt[i] == at.update
  {
    var op := Claim(w, scope, s.lease, at);
    ClaimHandsOutExactly(s, c, op, i);
    HolderColumn(c.rows, c.sessions, s.lease, op, i);
    StatusColumn(c.rows, c.sessions, s.lease, op, i);
    StopColumn(c.rows, c.sessions, s.lease, op, i);
  }

  lemma AcceptServed(s: Setting, c: Config, w: WorkerId, i: nat, at: Readings)
    requires Reachable(s, c) && c.sent != [] && Asked(c, w, AcceptReq(i), AwaitAccept(|c.sent| - 1, i)) && i < |c.rows|
    requires c.rows[i].status == Queued && c.rows[i].stoppedAt.None? && c.rows[i].claimedBy == Some(w)
    requires !LapsedBy(c, i, s.lease, at.update)
    ensures var c' := Next(s, c, Serve(|c.sent| - 1, at));
      && SameBut(c, c', i)
      && c'.history.completions == c.history.completions && c'.history.hooked == c.history.hooked
      && (|c.sent| - 1, OnAccept(AcceptedNow)) in c'.replies
      && c'.rows[i].status == Accepted && c'.rows[i].claimedBy == Some(w)
  {
    var op := Accept(i, w, at.update);
    AcceptAnswers(s, c, i, w, at.update);
    HolderColumn(c.rows, c.sessions, s.lease, op, i);
    StatusColumn(c.rows, c.sessions, s.lease, op, i);
  }

  lemma ReportServed(s: Setting, c: Config, w: WorkerId, i: nat, result: string, failed: bool, at: Readings)
    requires Reachable(s, c) && c.sent != [] && Asked(c, w, CompleteReq(i, result, failed), AwaitReport(i))
    requires i < |c.rows| && c.rows[i].status == Accepted && Execution(w, i) in c.history.executions
    ensures var c' := Next(s, c, Serve(|c.sent| - 1, at));
      && SameBut(c, c', i)
      && c'.history.completions == c.history.completions + [Completion(i, w, result, failed)]
      && c'.history.hooked == c.history.hooked + [(i, c'.rows[i])]
      && RecordedOn(c'.rows, Completion(i, w, result, failed))
  {
    StatusIsTrue(s, c, i);
    ExecutionIsRecorded(s, c, Execution(w, i), result, failed, at.update);
  }

  lemma ReachableNext(s: Setting, c: Config, step: Step)
    requires Reachable(s, c)
    ensures Reachable(s, Next(s, c, step))
  {
    var steps :| c == Run(s, START, steps);
    RunMore(s, START, steps, step);
  }

  lemma {:induction false} RunMore(s: Setting, c: Config, steps: seq<Step>, step: Step)
    ensures Run(s, c, steps + [step]) == Next(s, Run(s, c, steps), step)
    decreases |steps|
  {
    if steps == [] {
      assert steps + [step] == [step];
    } else {
      RunMore(s, Next(s, c, steps[0]), steps[1..], step);
      assert (steps + [step])[1..] == steps[1..] + [step];
    }
  }

  lemma RunTwoMore(s: Setting, c: Config, steps: seq<Step>, a: Step, b: Step)
    ensures Run(s, c, steps + [a, b]) == Next(s, Next(s, Run(s, c, steps), a), b)
  {
    RunMore(s, c, steps, a);
    RunMore(s, c, steps + [a], b);
    assert steps + [a] + [b] == steps + [a, b];
  }

  /** What a worker's progress with an item leaves as it was at `c`. */
  predicate NothingRecorded(c: Config, c': Config) {
    c'.history.completions == c.history.completions && c'.history.hooked == c.history.hooked
  }

  lemma ItemIsHanded(s: Setting, c: Config, w: WorkerId, scope: Scope, i: nat, at: Readings) returns (c': Config)
    requires Reachable(s, c) && w in s.pollers && PhaseOf(c, w).Idle?
    requires FirstCandidate(c, i, scope, s.lease, at.select) && LapsedBy(c, i, s.lease, at.update)
    ensures c' == Next(s, Next(s, c, SendClaim(w, scope)), Serve(|c.sent|, at)) && Reachable(s, c')
    ensures |c'.sent| == |c.sent| + 1 && PhaseOf(c', w) == AwaitClaim(|c.sent|)
    ensures (|c.sent|, Handed(Some(i))) in c'.replies
    ensures i < |c'.rows| && c'.rows[i].status == Queued && c'.rows[i].stoppedAt.None?
    ensures c'.rows[i].claimedBy == Some(w)
    ensures i in c'.history.renewedAt && c'.history.renewedAt[i] == at.update
    ensures NothingRecorded(c, c') && c'.history.executions == c.history.executions
  {
    var c1 := Next(s, c, SendClaim(w, scope));
    ReachableNext(s, c, SendClaim(w, scope));
    assert forall j: nat :: Candidate(c1, j, scope, s.lease, at.select) <==> Candidate(c, j, scope, s.lease, at.select);
    ClaimServed(s, c1, w, scope, i, at);
    c' := Next(s, c1, Serve(|c.sent|, at));
    ReachableNext(s, c1, Serve(|c.sent|, at));
  }

  lemma ItemIsAccepted(s: Setting, c: Config, w: WorkerId, i: nat, at: Readings) returns (c': Config)
    requires Reachable(s, c) && Enabled(s, c, GetItem(w, i)) && i < |c.rows|
    requires c.rows[i].status == Queued && c.rows[i].stoppedAt.None? && c.rows[i].claimedBy == Some(w)
    requires !LapsedBy(c, i, s.lease, at.update)
    ensures c' == Next(s, Next(s, c, GetItem(w, i)), Serve(|c.sent|, at)) && Reachable(s, c')
    ensures |c'.sent| == |c.sent| + 1 && PhaseOf(c', w) == AwaitAccept(|c.sent|, i)
    ensures Enabled(s, c', GetGoAhead(w))
    ensures i < |c'.rows| && c'.rows[i].status == Accepted
    ensures NothingRecorded(c, c') && c'.history.executions == c.history.executions
  {
    var c1 := Next(s, c, GetItem(w, i));
    ReachableNext(s, c, GetItem(w, i));
    AcceptServed(s, c1, w, i, at);
    c' := Next(s, c1, Serve(|c.sent|, at));
    ReachableNext(s, c1, Serve(|c.sent|, at));
  }

  lemma ItemIsReported(s: Setting, c: Config, w: WorkerId, i: nat, result: string, failed: bool, at: Readings)
    returns (c': Config)
    requires Reachable(s, c) && PhaseOf(c, w) == Running(i, false, {}) && i < |c.rows|
    requires c.rows[i].status == Accepted && Execution(w, i) in c.history.executions
    ensures c' == Next(s, Next(s, c, SendReport(w, result, failed)), Serve(|c.sent|, at))
    ensures c'.history.executions == c.history.executions
    ensures c'.history.completions == c.history.completions + [Completion(i, w, result, failed)]
    ensures RecordedOn(c'.rows, Completion(i, w, result, failed))
    ensures c'.history.hooked == c.history.hooked + [(i, c'.rows[i])]
  {
    var c1 := Next(s, c, SendReport(w, result, failed));
    ReachableNext(s, c, SendReport(w, result, failed));
    ReportServed(s, c1, w, i, result, failed, at);
    c' := Next(s, c1, Serve(|c.sent|, at));
  }

  lemma ItemStarts(s: Setting, c: Config, w: WorkerId, i: nat) returns (c': Config)
    requires Reachable(s, c) && Enabled(s, c, GetGoAhead(w)) && PhaseOf(c, w).item == i
    ensures c' == Next(s, c, GetGoAhead(w)) && Reachable(s, c') && c'.rows == c.rows && c'.sent == c.sent
    ensures PhaseOf(c', w) == Running(i, false, {}) && NothingRecorded(c, c')
    ensures c'.history.executions == c.history.executions + [Execution(w, i)]
  {
    c' := Next(s, c, GetGoAhead(w));
    ReachableNext(s, c, GetGoAhead(w));
  }

  /** In every reachable configuration, an idle poll loop whose claim is served while item `i` is first
      in its scope, and whose acceptance is served within the lease, executes `i`; and its
      report, when that is served next, is the item's one outcome, which the hook is told. */
  lemma ReadyItemIsDelivered(s: Setting, c: Config, w: WorkerId, scope: Scope, i: nat, first: Readings,
                             second: Readings, third: Readings, result: string, failed: bool)
    returns (c': Config)
    requires Reachable(s, c) && w in s.pollers && PhaseOf(c, w).Idle?
    requires FirstCandidate(c, i, scope, s.lease, first.select) && LapsedBy(c, i, s.lease, first.update)
    requires second.update < first.update - first.update % 1000 + s.lease
    ensures var n := |c.sent|;
      c' == Run(s, c, [SendClaim(w, scope), Serve(n, first)] + [GetItem(w, i), Serve(n + 1, second)]
                      + [GetGoAhead(w)] + [SendReport(w, result, failed), Serve(n + 2, third)])
    ensures c'.history.executions == c.history.executions + [Execution(w, i)]
    ensures c'.history.completions == c.history.completions + [Completion(i, w, result, failed)]
    ensures RecordedOn(c'.rows, Completion(i, w, result, failed))
    ensures c'.history.hooked == c.history.hooked + [(i, c'.rows[i])]
  {
    var n := |c.sent|;
    var handed := ItemIsHanded(s, c, w, scope, i, first);
    var accepted := ItemIsAccepted(s, handed, w, i, second);
    var started := ItemStarts(s, accepted, w, i);
    assert started.history.executions[|c.history.executions|] == Execution(w, i);
    c' := ItemIsReported(s, started, w, i, result, failed, third);
    var a, b := [SendClaim(w, scope), Serve(n, first)], [GetItem(w, i), Serve(n + 1, second)];
    RunTwoMore(s, c, [], SendClaim(w, scope), Serve(n, first));
    assert [] + a == a;
    RunTwoMore(s, c, a, GetItem(w, i), Serve(n + 1, second));
    RunMore(s, c, a + b, GetGoAhead(w));
    RunTwoMore(s, c, a + b + [GetGoAhead(w)], SendReport(w, result, failed), Serve(n + 2, third));
  }
}
