/** What the stored rows say about the past, and what they commit the future to, over
    whole runs of the protocol. */
module RunTruths {
  import opened Wrappers
  import opened WorkRows
  import opened RowHistory
  import opened Protocol
  import opened Queue

  // ----- what one operation does to one column -----

  /** `claimed_at` moves exactly when a lease is started or renewed. */
  lemma LeaseColumn(rows: Rows, sessions: Sessions, lease: nat, op: Op, i: nat)
    requires i < |Apply(rows, sessions, lease, op).0|
    ensures var (out, answer) := Apply(rows, sessions, lease, op);
      var renewal := RenewalOf(op, answer);
      out[i].claimedAt == if renewal.Some? && renewal.value.0 == i then Some(Sec(renewal.value.1))
                          else if i < |rows| then rows[i].claimedAt else None
  {
  }

  /** A row becomes accepted exactly when an acceptance is answered, and unknown only from accepted. */
  lemma AcceptedColumn(rows: Rows, sessions: Sessions, lease: nat, op: Op, i: nat)
    requires i < |Apply(rows, sessions, lease, op).0|
    ensures var (out, answer) := Apply(rows, sessions, lease, op);
      && (AcceptanceOf(op, answer) == Some(i) ==> i < |rows| && out[i].status == Accepted)
      && (out[i].status == Accepted || out[i].status == Unknown ==>
            || AcceptanceOf(op, answer) == Some(i)
            || (i < |rows| && (rows[i].status == Accepted || rows[i].status == Unknown)))
  {
  }

  predicate Settled(r: Row) {
    r.status == Applied || r.status == Failed
  }

  predicate RecordedOn(rows: Rows, x: Completion) {
    && x.item < |rows|
    && rows[x.item].status == (if x.failed then Failed else Applied)
    && rows[x.item].result == Some(x.result)
    && rows[x.item].claimedBy == Some(x.worker)
  }

  /** A row gets its outcome exactly when a completion is answered `completed`. */
  lemma OutcomeColumn(rows: Rows, sessions: Sessions, lease: nat, op: Op)
    ensures var (out, answer) := Apply(rows, sessions, lease, op);
      var x := CompletionOf(op, answer);
      && (x.Some? ==> x.value.item < |rows| && Open(rows[x.value.item]) && RecordedOn(out, x.value))
      && (forall i: nat :: i < |out| && Settled(out[i]) ==>
            (i < |rows| && Settled(rows[i])) || (x.Some? && x.value.item == i))
  {
  }

  // ----- rows against the history -----

  ghost predicate LeaseInv(rows: Rows, h: History) {
    && (forall i :: i in h.handed || i in h.renewedAt ==> i < |rows| && rows[i].claimedAt.Some?)
    && (forall i: nat :: i < |rows| && rows[i].claimedAt.Some? ==>
          i in h.renewedAt && rows[i].claimedAt == Some(Sec(h.renewedAt[i])))
  }

  ghost predicate AcceptInv(rows: Rows, h: History) {
    && (forall i :: i in h.accepted ==> i < |rows| && rows[i].status != Queued)
    && (forall i: nat :: i < |rows| && (rows[i].status == Accepted || rows[i].status == Unknown) ==> i in h.accepted)
  }

  predicate CompletedIn(xs: seq<Completion>, i: nat) {
    exists k :: 0 <= k < |xs| && xs[k].item == i
  }

  ghost predicate OutcomeInv(rows: Rows, xs: seq<Completion>) {
    && (forall k :: 0 <= k < |xs| ==> RecordedOn(rows, xs[k]))
    && (forall j, k :: 0 <= j < k < |xs| ==> xs[j].item != xs[k].item)
    && (forall i: nat :: i < |rows| && Settled(rows[i]) ==> CompletedIn(xs, i))
  }

  /** The hook was called once for each completion, in order, with the row as it will stay. */
  ghost predicate HookInv(rows: Rows, h: History) {
    && |h.hooked| == |h.completions|
    && forall k :: 0 <= k < |h.hooked| ==>
         && h.hooked[k].0 == h.completions[k].item < |rows|
         && h.hooked[k].1 == rows[h.hooked[k].0]
  }

  ghost predicate HistoryInv(c: Config) {
    && LeaseInv(c.rows, c.history) && AcceptInv(c.rows, c.history)
    && OutcomeInv(c.rows, c.history.completions) && HookInv(c.rows, c.history)
  }

  lemma OperateKeepsHooks(s: Setting, c: Config, op: Op)
    requires AllWf(c.rows) && OutcomeInv(c.rows, c.history.completions) && HookInv(c.rows, c.history)
    ensures var c' := Operate(s, c, op); HookInv(c'.rows, c'.history)
  {
    var (rows, answer) := Apply(c.rows, c.sessions, s.lease, op);
    ApplyMovesForward(c.rows, c.sessions, s.lease, op);
    OutcomeColumn(c.rows, c.sessions, s.lease, op);
    forall k | 0 <= k < |c.history.hooked| ensures rows[c.history.hooked[k].0] == c.rows[c.history.hooked[k].0] {
      var x := c.history.completions[k];
      assert RecordedOn(c.rows, x) && Later(c.rows[x.item], rows[x.item]);
    }
  }

  /** The lease columns of `rows'`, after the lease `renewal` names (if any) was started or renewed. */
  ghost predicate LeasesMoved(rows: Rows, rows': Rows, renewal: Option<(nat, int)>) {
    && |rows| <= |rows'| && (renewal.Some? ==> renewal.value.0 < |rows|)
    && forall i: nat :: i < |rows'| ==>
         rows'[i].claimedAt == if renewal.Some? && renewal.value.0 == i then Some(Sec(renewal.value.1))
                               else if i < |rows| then rows[i].claimedAt else None
  }

  lemma OperateMovesLeases(s: Setting, c: Config, op: Op)
    requires AllWf(c.rows)
    ensures var (rows, answer) := Apply(c.rows, c.sessions, s.lease, op);
      LeasesMoved(c.rows, rows, RenewalOf(op, answer))
  {
    var (rows, answer) := Apply(c.rows, c.sessions, s.lease, op);
    ApplyMovesForward(c.rows, c.sessions, s.lease, op);
    forall i: nat | i < |rows|
      ensures var renewal := RenewalOf(op, answer);
        rows[i].claimedAt == if renewal.Some? && renewal.value.0 == i then Some(Sec(renewal.value.1))
                             else if i < |c.rows| then c.rows[i].claimedAt else None
    {
      LeaseColumn(c.rows, c.sessions, s.lease, op, i);
    }
  }

  lemma LeasesMovedKeep(rows: Rows, h: History, rows': Rows, h': History, renewal: Option<(nat, int)>)
    requires LeaseInv(rows, h) && LeasesMoved(rows, rows', renewal)
    requires h'.renewedAt == if renewal.Some? then h.renewedAt[renewal.value.0 := renewal.value.1] else h.renewedAt
    requires forall i :: i in h'.handed ==> i in h.handed || (renewal.Some? && renewal.value.0 == i && i < |rows|)
    ensures LeaseInv(rows', h')
  {
  }

  lemma OperateKeepsLease(s: Setting, c: Config, op: Op)
    requires AllWf(c.rows) && LeaseInv(c.rows, c.history)
    ensures var c' := Operate(s, c, op); LeaseInv(c'.rows, c'.history)
  {
    var answer := Apply(c.rows, c.sessions, s.lease, op).1;
    var c' := Operate(s, c, op);
    OperateMovesLeases(s, c, op);
    if op.Claim? { ClaimHandsOut(c.rows, c.sessions, s.lease, op); }
    LeasesMovedKeep(c.rows, c.history, c'.rows, c'.history, RenewalOf(op, answer));
  }

  lemma OperateKeepsAccept(s: Setting, c: Config, op: Op)
    requires AllWf(c.rows) && AcceptInv(c.rows, c.history)
    ensures var c' := Operate(s, c, op); AcceptInv(c'.rows, c'.history)
  {
    var (rows, answer) := Apply(c.rows, c.sessions, s.lease, op);
    var c' := Operate(s, c, op);
    ApplyMovesForward(c.rows, c.sessions, s.lease, op);
    forall i | i in c'.history.accepted ensures i < |rows| && rows[i].status != Queued {
      if i in c.history.accepted {
        assert Later(c.rows[i], rows[i]);
      } else {
        assert i < |rows|;
        AcceptedColumn(c.rows, c.sessions, s.lease, op, i);
      }
    }
    forall i: nat | i < |rows| && (rows[i].status == Accepted || rows[i].status == Unknown)
      ensures i in c'.history.accepted
    {
      AcceptedColumn(c.rows, c.sessions, s.lease, op, i);
    }
  }

  lemma OperateKeepsOutcome(s: Setting, c: Config, op: Op)
    requires AllWf(c.rows) && OutcomeInv(c.rows, c.history.completions)
    ensures var c' := Operate(s, c, op); OutcomeInv(c'.rows, c'.history.completions)
  {
    var (rows, answer) := Apply(c.rows, c.sessions, s.lease, op);
    var xs, xs' := c.history.completions, Operate(s, c, op).history.completions;
    ApplyMovesForward(c.rows, c.sessions, s.lease, op);
    OutcomeColumn(c.rows, c.sessions, s.lease, op);
    forall k | 0 <= k < |xs| ensures RecordedOn(rows, xs[k]) {
      assert RecordedOn(c.rows, xs[k]) && Later(c.rows[xs[k].item], rows[xs[k].item]);
    }
    forall i: nat | i < |rows| && Settled(rows[i]) ensures CompletedIn(xs', i) {
      if i < |c.rows| && Settled(c.rows[i]) {
        var k :| 0 <= k < |xs| && xs[k].item == i;
        assert xs'[k].item == i;
      } else {
        assert xs'[|xs|].item == i;
      }
    }
  }

  // ----- reports against executions -----

  /** Reports, and completions under a poll loop's name, come only from whoever ran the
      item, and no item is reported twice. */
  ghost predicate ReportInv(s: Setting, c: Config) {
    && (forall w :: w in c.phases && c.phases[w].Running? ==>
          Execution(w, c.phases[w].item) in c.history.executions)
    && (forall n :: 0 <= n < |c.sent| && c.sent[n].request.CompleteReq? ==>
          Execution(c.sent[n].worker, c.sent[n].request.item) in c.history.executions)
    && (forall w, n | w in c.phases && c.phases[w].Running? && 0 <= n < |c.sent| && c.sent[n].request.CompleteReq?
          :: c.sent[n].worker == w ==> c.sent[n].request.item != c.phases[w].item)
    && (forall m, n :: 0 <= m < n < |c.sent| && c.sent[m].request.CompleteReq? && c.sent[n].request.CompleteReq? ==>
          c.sent[m].request.item != c.sent[n].request.item)
    && (forall x :: x in c.history.completions && x.worker in s.pollers ==>
          Execution(x.worker, x.item) in c.history.executions)
  }

  lemma OperateKeepsReports(s: Setting, c: Config, op: Op)
    requires ReportInv(s, c)
    requires op.Complete? && op.worker in s.pollers ==> Execution(op.worker, op.id) in c.history.executions
    ensures ReportInv(s, Operate(s, c, op))
  {
  }

  lemma SendReportKeepsReports(s: Setting, c: Config, w: WorkerId, result: string, failed: bool)
    requires Inv(c) && ReportInv(s, c) && PhaseOf(c, w).Running?
    ensures ReportInv(s, Next(s, c, SendReport(w, result, failed)))
  {
    var item := PhaseOf(c, w).item;
    assert Held(c.rows, Execution(w, item));
    // Somebody else's report of this item would make somebody else its holder.
    forall n | 0 <= n < |c.sent| && c.sent[n].request.CompleteReq? ensures c.sent[n].request.item != item {
      assert Held(c.rows, Execution(c.sent[n].worker, c.sent[n].request.item));
    }
  }

  /** A worker that keeps, or leaves, the item it is running. */
  lemma MoveKeepsReports(s: Setting, c: Config, c': Config, w: WorkerId, p: Phase)
    requires ReportInv(s, c)
    requires c' == c.(phases := c.phases[w := p], sent := c'.sent)
    requires c'.sent == c.sent || (|c'.sent| == |c.sent| + 1 && c'.sent[..|c.sent|] == c.sent
                                   && !c'.sent[|c.sent|].request.CompleteReq?)
    requires p.Running? ==> PhaseOf(c, w).Running? && p.item == PhaseOf(c, w).item
    ensures ReportInv(s, c')
  {
  }

  lemma StartKeepsReports(s: Setting, c: Config, w: WorkerId)
    requires Inv(c) && ReportInv(s, c) && Enabled(s, c, GetGoAhead(w))
    ensures ReportInv(s, Next(s, c, GetGoAhead(w)))
  {
    assert Execution(w, PhaseOf(c, w).item) !in c.history.executions;
  }

  lemma StepKeepsReports(s: Setting, c: Config, step: Step)
    requires Inv(c) && ReportInv(s, c)
    ensures ReportInv(s, Next(s, c, step))
  {
    if Enabled(s, c, step) {
      var c' := Next(s, c, step);
      match step
      case Serve(n, at) => OperateKeepsReports(s, c, OpFor(c.sent[n], s.lease, at));
      case Other(op) => OperateKeepsReports(s, c, op);
      case ChangeSession(_, _) =>
      case GetGoAhead(w) => StartKeepsReports(s, c, w);
      case SendReport(w, result, failed) => SendReportKeepsReports(s, c, w, result, failed);
      case SendClaim(w, _) => MoveKeepsReports(s, c, c', w, PhaseOf(c', w));
      case GetItem(w, _) => MoveKeepsReports(s, c, c', w, PhaseOf(c', w));
      case SendRenewal(w) => MoveKeepsReports(s, c, c', w, PhaseOf(c', w));
      case GetLeaseLost(w, _) => MoveKeepsReports(s, c, c', w, PhaseOf(c', w));
      case StartOver(w) => MoveKeepsReports(s, c, c', w, PhaseOf(c', w));
    }
  }

  // ----- every reachable configuration -----

  ghost predicate FullInv(s: Setting, c: Config) {
    Inv(c) && HistoryInv(c) && ReportInv(s, c)
  }

  lemma OperateKeepsHistory(s: Setting, c: Config, op: Op)
    requires AllWf(c.rows) && HistoryInv(c)
    ensures HistoryInv(Operate(s, c, op))
  {
    OperateKeepsLease(s, c, op);
    OperateKeepsAccept(s, c, op);
    OperateKeepsOutcome(s, c, op);
    OperateKeepsHooks(s, c, op);
  }

  lemma StepKeepsAll(s: Setting, c: Config, step: Step)
    requires FullInv(s, c)
    ensures FullInv(s, Next(s, c, step)) && AllLater(c.rows, Next(s, c, step).rows)
    ensures |c.history.completions| <= |Next(s, c, step).history.completions|
    ensures Next(s, c, step).history.completions[..|c.history.completions|] == c.history.completions
    ensures forall id :: Ended(c.sessions, id) ==> Ended(Next(s, c, step).sessions, id)
  {
    StepKeepsInv(s, c, step);
    StepKeepsReports(s, c, step);
    if Enabled(s, c, step) && (step.Serve? || step.Other?) {
      var op := if step.Serve? then OpFor(c.sent[step.n], s.lease, step.at) else step.op;
      OperateKeepsHeld(s, c, op);
      OperateKeepsHistory(s, c, op);
    }
  }

  lemma {:induction false} RunKeepsAll(s: Setting, c: Config, steps: seq<Step>)
    requires FullInv(s, c)
    ensures FullInv(s, Run(s, c, steps)) && AllLater(c.rows, Run(s, c, steps).rows)
    ensures |c.history.completions| <= |Run(s, c, steps).history.completions|
    ensures Run(s, c, steps).history.completions[..|c.history.completions|] == c.history.completions
    ensures forall id :: Ended(c.sessions, id) ==> Ended(Run(s, c, steps).sessions, id)
    decreases |steps|
  {
    if steps != [] {
      var c' := Next(s, c, steps[0]);
      StepKeepsAll(s, c, steps[0]);
      RunKeepsAll(s, c', steps[1..]);
      LaterTransitive(c.rows, c'.rows, Run(s, c, steps).rows);
      var xs := Run(s, c, steps).history.completions;
      assert xs[..|c.history.completions|] == xs[..|c'.history.completions|][..|c.history.completions|];
    }
  }

  /** Where a run that begins with an empty queue can be. */
  ghost predicate Reachable(s: Setting, c: Config) {
    exists steps :: c == Run(s, START, steps)
  }

  lemma ReachableKeeps(s: Setting, c: Config)
    requires Reachable(s, c)
    ensures FullInv(s, c)
  {
    var steps :| c == Run(s, START, steps);
    RunKeepsAll(s, START, steps);
  }

  // ----- what the rows say about the past -----

  predicate Executed(c: Config, i: nat) {
    exists e :: e in c.history.executions && e.item == i
  }

  /** The status column is true of history. */
  lemma StatusIsTrue(s: Setting, c: Config, i: nat)
    requires Reachable(s, c) && i < |c.rows|
    ensures c.rows[i].status == Queued ==>
              && c.rows[i].acceptedAt.None? && i !in c.history.accepted
              && !Executed(c, i) && !CompletedIn(c.history.completions, i)
    ensures c.rows[i].status == Accepted || c.rows[i].status == Unknown ==>
              i in c.history.accepted && !CompletedIn(c.history.completions, i)
    ensures Settled(c.rows[i]) <==> CompletedIn(c.history.completions, i)
    ensures forall e :: e in c.history.executions && e.item == i ==> c.rows[i].claimedBy == Some(e.worker)
  {
    ReachableKeeps(s, c);
    forall e | e in c.history.executions && e.item == i ensures Held(c.rows, e) {
    }
    if CompletedIn(c.history.completions, i) {
      var k :| 0 <= k < |c.history.completions| && c.history.completions[k].item == i;
      assert RecordedOn(c.rows, c.history.completions[k]);
    }
  }

  /** A poll loop reports only what it ran, reports no item twice, and an outcome under its
      name is the outcome of an execution. */
  lemma ReportsAreOfExecutions(s: Setting, c: Config)
    requires Reachable(s, c)
    ensures forall n :: 0 <= n < |c.sent| && c.sent[n].request.CompleteReq? ==>
              Execution(c.sent[n].worker, c.sent[n].request.item) in c.history.executions
    ensures forall m, n :: 0 <= m < n < |c.sent| && c.sent[m].request.CompleteReq? && c.sent[n].request.CompleteReq?
              ==> c.sent[m].request.item != c.sent[n].request.item
    ensures forall x :: x in c.history.completions && x.worker in s.pollers ==>
              Execution(x.worker, x.item) in c.history.executions
  {
    ReachableKeeps(s, c);
  }

  /** `work_queue_timeout` is reported only for an item that nobody was handed, accepted or started. */
  lemma QueueTimeoutIsTruthful(s: Setting, c: Config, i: nat)
    requires Reachable(s, c) && i < |c.rows|
    requires WaitCodeFor(Some(c.rows[i])) == QueueTimeout
    ensures i !in c.history.handed && i !in c.history.accepted && !Executed(c, i)
    ensures !CompletedIn(c.history.completions, i) && c.rows[i].stoppedAt.None?
  {
    ReachableKeeps(s, c);
    StatusIsTrue(s, c, i);
  }

  // ----- what the rows commit the future to -----

  /** At most one completion of an item is ever answered `completed`; it stays the row's
      outcome for ever after. */
  lemma OutcomeIsFinal(s: Setting, c: Config, more: seq<Step>, k: nat)
    requires Reachable(s, c) && k < |c.history.completions|
    ensures var c' := Run(s, c, more);
      && k < |c'.history.completions| && c'.history.completions[k] == c.history.completions[k]
      && c.history.completions[k].item < |c.rows|
      && RecordedOn(c'.rows, c.history.completions[k])
      && c'.rows[c.history.completions[k].item] == c.rows[c.history.completions[k].item]
      && (forall j :: 0 <= j < |c'.history.completions| && j != k ==>
            c'.history.completions[j].item != c.history.completions[k].item)
  {
    ReachableKeeps(s, c);
    RunKeepsAll(s, c, more);
    var c' := Run(s, c, more);
    var x := c.history.completions[k];
    assert c'.history.completions[..|c.history.completions|][k] == x;
    assert RecordedOn(c.rows, x) && Later(c.rows[x.item], c'.rows[x.item]);
  }

  predicate HookedIn(calls: seq<HookCall>, i: nat) {
    exists k :: 0 <= k < |calls| && calls[k].0 == i
  }

  lemma HooksAreOfSettled(rows: Rows, h: History)
    requires OutcomeInv(rows, h.completions) && HookInv(rows, h)
    ensures forall i: nat :: i < |rows| ==> (Settled(rows[i]) <==> HookedIn(h.hooked, i))
    ensures forall j, k :: 0 <= j < k < |h.hooked| ==> h.hooked[j].0 != h.hooked[k].0
    ensures forall k :: 0 <= k < |h.hooked| ==> h.hooked[k].0 < |rows| && Settled(h.hooked[k].1)
  {
    var calls, xs := h.hooked, h.completions;
    forall k | 0 <= k < |calls| ensures calls[k].0 < |rows| && Settled(rows[calls[k].0]) {
      assert RecordedOn(rows, xs[k]);
    }
    forall i: nat | i < |rows| && Settled(rows[i]) ensures HookedIn(calls, i) {
      var k :| 0 <= k < |xs| && xs[k].item == i;
      assert calls[k].0 == i;
    }
    forall j, k | 0 <= j < k < |calls| ensures calls[j].0 != calls[k].0 {
      assert xs[j].item != xs[k].item;
    }
  }

  /** The completion hook fires exactly once for every settled item, with the row that every
      continuation keeps, and for no other item. */
  lemma HookFiresOnce(s: Setting, c: Config, more: seq<Step>)
    requires Reachable(s, c)
    ensures var calls, later := c.history.hooked, Run(s, c, more).rows;
      && (forall i: nat :: i < |c.rows| ==> (Settled(c.rows[i]) <==> HookedIn(calls, i)))
      && (forall j, k :: 0 <= j < k < |calls| ==> calls[j].0 != calls[k].0)
      && (forall k :: 0 <= k < |calls| ==> calls[k].0 < |later| && calls[k].1 == later[calls[k].0])
  {
    ReachableKeeps(s, c);
    RunKeepsAll(s, c, more);
    HooksAreOfSettled(c.rows, c.history);
    var calls, later := c.history.hooked, Run(s, c, more).rows;
    forall k | 0 <= k < |calls| ensures calls[k].0 < |later| && calls[k].1 == later[calls[k].0] {
      assert Later(c.rows[calls[k].0], later[calls[k].0]);
    }
  }

  /** Once a row is accepted it never goes back to the queue and its holder never changes,
      on either wire; `applied`, `failed` and `unknown` never change at all. */
  lemma HolderIsStable(s: Setting, c: Config, more: seq<Step>, i: nat)
    requires Reachable(s, c) && i < |c.rows| && c.rows[i].status != Queued
    ensures var c' := Run(s, c, more);
      && i < |c'.rows| && c'.rows[i].status != Queued && c'.rows[i].claimedBy == c.rows[i].claimedBy
      && (c.rows[i].status != Accepted ==> c'.rows[i] == c.rows[i])
  {
    ReachableKeeps(s, c);
    RunKeepsAll(s, c, more);
    assert Later(c.rows[i], Run(s, c, more).rows[i]);
  }

  // ----- stops -----

  /** A stopped row is never handed out, accepted or renewed, whoever asks. */
  lemma StoppedRefuses(rows: Rows, sessions: Sessions, lease: nat, op: Op, i: nat)
    requires i < |rows| && rows[i].stoppedAt.Some?
    ensures var answer := Apply(rows, sessions, lease, op).1;
      && HandOutOf(op, answer) != Some(i)
      && AcceptanceOf(op, answer) != Some(i)
      && (RenewalOf(op, answer).Some? ==> RenewalOf(op, answer).value.0 != i)
  {
  }

  /** Once stopped, always refused; the row stays exactly as it was stopped until its
      holder's completion is recorded, which stays possible until it happens. */
  lemma StopIsFinal(s: Setting, c: Config, more: seq<Step>, i: nat, op: Op)
    requires Reachable(s, c) && i < |c.rows| && c.rows[i].stoppedAt.Some?
    ensures var c' := Run(s, c, more);
      && i < |c'.rows|
      && (c'.rows[i] == c.rows[i] || (Open(c.rows[i]) && OutcomeRecorded(c.rows[i], c'.rows[i])))
      && var answer := Apply(c'.rows, c'.sessions, s.lease, op).1;
      && HandOutOf(op, answer) != Some(i)
      && AcceptanceOf(op, answer) != Some(i)
      && (RenewalOf(op, answer).Some? ==> RenewalOf(op, answer).value.0 != i)
      && (op.Complete? && op.id == i && Open(c'.rows[i]) && c.rows[i].claimedBy == Some(op.worker) ==>
            answer == OnComplete(Completed))
  {
    ReachableKeeps(s, c);
    RunKeepsAll(s, c, more);
    var c' := Run(s, c, more);
    assert Later(c.rows[i], c'.rows[i]);
    StoppedRefuses(c'.rows, c'.sessions, s.lease, op, i);
  }

  /** Once a session is terminal no claim hands out any of its items, marked or not, old or
      enqueued later; and what is enqueued later is born stopped. */
  lemma EndedSessionIsFinal(s: Setting, c: Config, more: seq<Step>, id: SessionId, op: Op)
    requires Reachable(s, c) && Ended(c.sessions, id)
    ensures var c' := Run(s, c, more);
      var (rows, answer) := Apply(c'.rows, c'.sessions, s.lease, op);
      && Ended(c'.sessions, id)
      && (HandOutOf(op, answer).Some? ==>
            HandOutOf(op, answer).value < |c'.rows| && c'.rows[HandOutOf(op, answer).value].session != id)
      && (op.Enqueue? && op.session == id ==> rows[answer.id].stoppedAt.Some?)
  {
    ReachableKeeps(s, c);
    RunKeepsAll(s, c, more);
    var c' := Run(s, c, more);
    if op.Claim? { ClaimHandsOut(c'.rows, c'.sessions, s.lease, op); }
  }

  // ----- lease arithmetic -----

  /** Flooring both sides to seconds loses exactly the renewal's own fraction. */
  lemma FlooredLease(renewed: int, window: nat, now: int)
    ensures Sec(renewed) <= Cutoff(now, window) <==> renewed - renewed % 1000 + window <= now
  {
  }

  /** When a held row's lease runs out, in terms of the instant it was last renewed: an
      accept is inside the lease exactly when a default claim finds it lapsed not. */
  lemma LeaseWindow(s: Setting, c: Config, i: nat, now: int)
    requires Reachable(s, c) && i < |c.rows| && c.rows[i].claimedAt.Some?
    ensures i in c.history.renewedAt
    ensures var r, renewed := c.rows[i], c.history.renewedAt[i];
      && (LeaseOut(r, Cutoff(now, s.lease)) <==> renewed - renewed % 1000 + s.lease <= now)
      && (InsideLease(r, Cutoff(now, s.lease)) <==> !LeaseOut(r, Cutoff(now, s.lease)))
      && (r.status == Queued && now <= renewed + s.lease - 1000 ==>
            !Claimable(c.sessions, r, Cutoff(now, s.lease)))
      && (r.status == Queued && now >= renewed + s.lease && r.stoppedAt.None? && !Ended(c.sessions, r.session) ==>
            Claimable(c.sessions, r, Cutoff(now, s.lease)))
      && (forall w :: r.claimedBy == Some(w) && Open(r) && r.stoppedAt.None? ==>
            (AcceptOp(c.rows, s.lease, i, w, now).1 == AcceptedNow <==> now < renewed - renewed % 1000 + s.lease))
  {
    ReachableKeeps(s, c);
    FlooredLease(c.history.renewedAt[i], s.lease, now);
  }

  /** A sweep turns a row into `unknown` exactly when the row was accepted, is not stopped and its
      last renewal is that far back; so never a row that was renewed within the lease less a second. */
  lemma SweepSparesRenewed(s: Setting, c: Config, i: nat, now: int)
    requires Reachable(s, c) && i < |c.rows| && c.rows[i].status != Unknown
    ensures Sweep(c.rows, Cutoff(now, s.lease))[i].status == Unknown <==>
            && c.rows[i].status == Accepted && c.rows[i].stoppedAt.None? && i in c.history.renewedAt
            && c.history.renewedAt[i] - c.history.renewedAt[i] % 1000 + s.lease <= now
    ensures Sweep(c.rows, Cutoff(now, s.lease))[i].status == Unknown ==>
              i in c.history.renewedAt && c.history.renewedAt[i] + s.lease - 1000 < now
  {
    ReachableKeeps(s, c);
    if c.rows[i].status == Accepted { LeaseWindow(s, c, i, now); }
  }

  // ----- giving up a wait is invisible -----

  function Forget(r: Row): Row {
    r.(abandonedAt := None)
  }

  function ForgetAll(rows: Rows): (out: Rows)
    ensures |out| == |rows| && forall i: nat :: i < |rows| ==> out[i] == Forget(rows[i])
  {
    seq(|rows|, i requires 0 <= i < |rows| => Forget(rows[i]))
  }

  function ForgetCalls(calls: seq<HookCall>): (out: seq<HookCall>)
    ensures |out| == |calls| && forall k :: 0 <= k < |calls| ==> out[k] == (calls[k].0, Forget(calls[k].1))
  {
    seq(|calls|, k requires 0 <= k < |calls| => (calls[k].0, Forget(calls[k].1)))
  }

  /** `abandoned_at` erased wherever it is kept: in the rows and in the rows the hook was shown. */
  function ForgetIn(c: Config): Config {
    c.(rows := ForgetAll(c.rows), history := c.history.(hooked := ForgetCalls(c.history.hooked)))
  }

  lemma OldestForgets(rows: Rows, pick: Row -> bool)
    requires forall r: Row :: pick(Forget(r)) == pick(r)
    ensures Oldest(ForgetAll(rows), pick) == Oldest(rows, pick)
  {
  }

  lemma ClaimForgets(rows: Rows, sessions: Sessions, lease: nat, op: Op)
    requires op.Claim?
    ensures var (out, answer) := Apply(rows, sessions, lease, op);
      var (out', answer') := Apply(ForgetAll(rows), sessions, lease, op);
      answer' == answer && ForgetAll(out') == ForgetAll(out)
  {
    var swept := Sweep(rows, Cutoff(op.at.sweep, lease));
    assert Sweep(ForgetAll(rows), Cutoff(op.at.sweep, lease)) == ForgetAll(swept);
    OldestForgets(swept, Selects(sessions, op.scope, Cutoff(op.at.select, op.reclaim)));
  }

  lemma LeasesForget(rows: Rows, sessions: Sessions, lease: nat, op: Op)
    requires op.Accept? || op.AcceptScoped? || op.Heartbeat? || op.HeartbeatScoped?
    ensures var (out, answer) := Apply(rows, sessions, lease, op);
      var (out', answer') := Apply(ForgetAll(rows), sessions, lease, op);
      answer' == answer && ForgetAll(out') == ForgetAll(out)
  {
    var out, out' := Apply(rows, sessions, lease, op).0, Apply(ForgetAll(rows), sessions, lease, op).0;
    if op.id < |rows| {
      assert ForgetAll(rows)[op.id] == Forget(rows[op.id]);
      assert Forget(out'[op.id]) == Forget(out[op.id]);
      assert out == rows[op.id := out[op.id]] && out' == ForgetAll(rows)[op.id := out'[op.id]];
    }
  }

  lemma EndingsForget(rows: Rows, sessions: Sessions, lease: nat, op: Op)
    requires op.Complete? || op.StopItem? || op.GiveUp?
    ensures var (out, answer) := Apply(rows, sessions, lease, op);
      var (out', answer') := Apply(ForgetAll(rows), sessions, lease, op);
      answer' == answer && ForgetAll(out') == ForgetAll(out)
    ensures op.GiveUp? ==> ForgetAll(Apply(rows, sessions, lease, op).0) == ForgetAll(rows)
  {
  }

  /** No operation's answer, and no column but `abandoned_at` itself, depends on `abandoned_at`. */
  lemma ApplyForgets(rows: Rows, sessions: Sessions, lease: nat, op: Op)
    ensures var (out, answer) := Apply(rows, sessions, lease, op);
      var (out', answer') := Apply(ForgetAll(rows), sessions, lease, op);
      answer' == answer && ForgetAll(out') == ForgetAll(out)
    ensures op.GiveUp? ==> ForgetAll(Apply(rows, sessions, lease, op).0) == ForgetAll(rows)
  {
    if op.Claim? {
      ClaimForgets(rows, sessions, lease, op);
    } else if op.Enqueue? || op.Stop? {
      var out, out' := Apply(rows, sessions, lease, op).0, Apply(ForgetAll(rows), sessions, lease, op).0;
      forall i: nat | i < |out| ensures i < |out'| && Forget(out'[i]) == Forget(out[i]) {
      }
    } else if op.Complete? || op.StopItem? || op.GiveUp? {
      EndingsForget(rows, sessions, lease, op);
    } else {
      LeasesForget(rows, sessions, lease, op);
    }
  }

  /** The same run with `abandoned_at` erased after every step. */
  function RunForgetting(s: Setting, c: Config, steps: seq<Step>): Config
    decreases |steps|
  {
    if steps == [] then c else RunForgetting(s, ForgetIn(Next(s, c, steps[0])), steps[1..])
  }

  lemma OperateForgets(s: Setting, c: Config, op: Op)
    ensures ForgetIn(Operate(s, ForgetIn(c), op)) == ForgetIn(Operate(s, c, op))
  {
    ApplyForgets(c.rows, c.sessions, s.lease, op);
    var (out, answer) := Apply(c.rows, c.sessions, s.lease, op);
    var out' := Apply(ForgetAll(c.rows), c.sessions, s.lease, op).0;
    var hook, hook' := HookOf(out, op, answer), HookOf(out', op, answer);
    assert |out'| == |ForgetAll(out')| == |ForgetAll(out)| == |out|;
    assert hook.Some? ==> ForgetAll(out')[op.id] == ForgetAll(out)[op.id];
    var calls, calls' := Operate(s, c, op).history.hooked, Operate(s, ForgetIn(c), op).history.hooked;
    assert ForgetCalls(calls') == ForgetCalls(calls);
  }

  lemma StepForgets(s: Setting, c: Config, step: Step)
    ensures ForgetIn(Next(s, ForgetIn(c), step)) == ForgetIn(Next(s, c, step))
  {
    assert ForgetAll(ForgetAll(c.rows)) == ForgetAll(c.rows);
    assert ForgetCalls(ForgetCalls(c.history.hooked)) == ForgetCalls(c.history.hooked);
    if Enabled(s, c, step) && (step.Serve? || step.Other?) {
      var op := if step.Serve? then OpFor(c.sent[step.n], s.lease, step.at) else step.op;
      OperateForgets(s, c, op);
      ApplyForgets(c.rows, c.sessions, s.lease, op);
    }
  }

  /** Erasing `abandoned_at` from every state changes no answer, message, phase or record:
      a wait that gave up is a note, not a fence. */
  lemma {:induction false} GiveUpsAreInvisible(s: Setting, c: Config, steps: seq<Step>)
    ensures RunForgetting(s, ForgetIn(c), steps) == ForgetIn(Run(s, c, steps))
    decreases |steps|
  {
    if steps != [] {
      StepForgets(s, c, steps[0]);
      GiveUpsAreInvisible(s, Next(s, c, steps[0]), steps[1..]);
    }
  }
}
