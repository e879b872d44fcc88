/** What every queue operation keeps: the shape of a single row, and the ways one
    row may change over time. */
module RowHistory {
  import opened Wrappers
  import opened WorkRows

  /** The shape of every stored row. The third clause is what makes a headerless
      acceptance safe: a lease nobody is named on was created by a heartbeat. */
  predicate Wf(r: Row) {
    && (r.status == Queued ==> r.acceptedAt.None?)
    && (r.status == Accepted || r.status == Unknown ==> r.acceptedAt.Some? && r.claimedAt.Some?)
    && (r.claimedAt.Some? && r.claimedBy.None? ==> r.heartbeatAt.Some?)
    && (r.claimedBy.Some? ==> r.claimedAt.Some?)
    && (r.status == Applied || r.status == Failed ==>
          r.claimedBy.Some? && r.completedAt.Some? && r.result.Some?)
    && (Open(r) || r.status == Unknown ==> r.completedAt.None? && r.result.None?)
  }

  predicate AllWf(rows: Rows) {
    forall i: nat :: i < |rows| ==> Wf(rows[i])
  }

  /** `r'` records an outcome on `r` and changes nothing else. */
  predicate OutcomeRecorded(r: Row, r': Row) {
    && r'.result.Some? && r'.completedAt.Some? && (r'.status == Applied || r'.status == Failed)
    && r' == r.(status := r'.status, result := r'.result, completedAt := r'.completedAt)
  }

  /** Everything that can become of a row: it stays, or it was open and moved forward.
      Rows with an outcome, or recorded as unknown, never change again; the holder of an
      accepted row is settled; a stopped row can only receive its outcome. */
  predicate Later(r: Row, r': Row) {
    || r' == r
    || (&& Open(r)
        && r'.session == r.session && r'.createdAt == r.createdAt
        && (r.claimedAt.Some? ==> r'.claimedAt.Some?)
        && (r.claimedBy.Some? ==> r'.claimedBy.Some?)
        && (r.status == Accepted ==> r'.status != Queued && r'.claimedBy == r.claimedBy)
        && (r.stoppedAt.Some? ==> OutcomeRecorded(r, r')))
  }

  predicate AllLater(rows: Rows, rows': Rows) {
    |rows| <= |rows'| && forall i: nat :: i < |rows| ==> Later(rows[i], rows'[i])
  }

  lemma LaterTransitive(a: Rows, b: Rows, c: Rows)
    requires AllLater(a, b) && AllLater(b, c)
    ensures AllLater(a, c)
  {
  }

  lemma OneRowMoves(rows: Rows, id: nat, r: Row)
    requires AllWf(rows) && id < |rows| && Wf(r) && Later(rows[id], r)
    ensures AllWf(rows[id := r]) && AllLater(rows, rows[id := r])
  {
  }

  lemma StopMoves(rows: Rows, session: SessionId, now: int)
    requires AllWf(rows)
    ensures AllWf(StopOp(rows, session, now)) && AllLater(rows, StopOp(rows, session, now))
  {
  }

  lemma ClaimMoves(rows: Rows, sessions: Sessions, lease: nat, worker: WorkerId, scope: Scope,
                   reclaim: nat, at: Readings)
    requires AllWf(rows)
    ensures var out := ClaimOp(rows, sessions, lease, worker, scope, reclaim, at).0;
      AllWf(out) && AllLater(rows, out)
  {
  }

  /** Each operation keeps the shape of every row and moves rows only forward. */
  lemma ApplyMovesForward(rows: Rows, sessions: Sessions, lease: nat, op: Op)
    requires AllWf(rows)
    ensures var out := Apply(rows, sessions, lease, op).0; AllWf(out) && AllLater(rows, out)
  {
    var out := Apply(rows, sessions, lease, op).0;
    match op
    case Enqueue(_, _) =>
    case Claim(worker, scope, reclaim, at) => ClaimMoves(rows, sessions, lease, worker, scope, reclaim, at);
    case Stop(session, now) => StopMoves(rows, session, now);
    case Accept(id, _, _) => if out != rows { OneRowMoves(rows, id, out[id]); }
    case AcceptScoped(id, _, _) => if out != rows { OneRowMoves(rows, id, out[id]); }
    case Heartbeat(id, _, _) => if out != rows { OneRowMoves(rows, id, out[id]); }
    case HeartbeatScoped(id, _, _, _) => if out != rows { OneRowMoves(rows, id, out[id]); }
    case Complete(id, _, _, _, _) => if out != rows { OneRowMoves(rows, id, out[id]); }
    case StopItem(id, _) => if out != rows { OneRowMoves(rows, id, out[id]); }
    case GiveUp(id, _) => if out != rows { OneRowMoves(rows, id, out[id]); }
  }

  /** A claim hands out only a queued, unstopped row of a session that has not ended, and
      leaves it queued under the caller's name. */
  lemma ClaimHandsOut(rows: Rows, sessions: Sessions, lease: nat, op: Op)
    requires op.Claim?
    ensures var (out, answer) := Apply(rows, sessions, lease, op);
      answer.item.Some? ==>
        var i := answer.item.value;
        && i < |rows|
        && rows[i].status == Queued && rows[i].stoppedAt.None? && !Ended(sessions, rows[i].session)
        && LeaseOut(rows[i], Cutoff(op.at.select, op.reclaim)) && InScope(sessions, rows[i], op.scope)
        && out[i] == ClaimRow(rows[i], op.worker, op.at.update)
  {
  }
}
