/** The rows of the self-hosted work queue, the sessions they belong to, and what
    each queue operation does to them.

    Every operation is a total function from the stored rows to the new rows and
    the caller's answer. Ids are positions in the row sequence, so they double as
    SQLite rowids. Times are milliseconds; stored timestamps are whole seconds. */
module WorkRows {
  import opened Wrappers
  import opened Sql

  type WorkerId = string
  type SessionId = string

  // ----- sessions -----

  datatype SessionStatus =
    | SQueued | SRunning | SRetrying | SPaused | SRequiresAction
    | SCompleted | SFailed | SCancelled | STimedOut | SCleanupPending | SArchived

  /** The session state machine's table of outbound transitions. */
  function Transitions(s: SessionStatus): set<SessionStatus> {
    match s
    case SQueued => {SRunning, SCompleted, SFailed, SCancelled, STimedOut, SCleanupPending, SArchived}
    case SRunning => {SRetrying, SPaused, SRequiresAction, SCompleted, SFailed, SCancelled, STimedOut,
                      SCleanupPending, SArchived}
    case SRetrying => {SRunning, SPaused, SFailed, SCancelled, STimedOut}
    case SPaused => {SRunning, SCompleted, SFailed, SCancelled, SArchived}
    case SRequiresAction => {SRunning, SCompleted, SFailed, SCancelled, STimedOut, SArchived}
    case SCompleted => {}
    case SFailed => {}
    case SCancelled => {}
    case STimedOut => {}
    case SCleanupPending => {}
    case SArchived => {}
  }

  /** The terminal statuses are read off the table rather than listed a second time. */
  predicate Terminal(s: SessionStatus) {
    Transitions(s) == {}
  }

  datatype Session = Session(status: SessionStatus, environment: string)

  type Sessions = map<SessionId, Session>

  /** A session id without a row is a caller's mistake, not an ended session. */
  predicate Ended(sessions: Sessions, id: SessionId) {
    id in sessions && Terminal(sessions[id].status)
  }

  // ----- rows -----

  datatype Status = Queued | Accepted | Applied | Failed | Unknown

  datatype Row = Row(
    session: SessionId,
    status: Status,
    result: Option<string>,
    claimedBy: Option<WorkerId>,
    createdAt: int,
    claimedAt: Option<int>,
    completedAt: Option<int>,
    stoppedAt: Option<int>,
    acceptedAt: Option<int>,
    abandonedAt: Option<int>,
    heartbeatAt: Option<int>)

  type Rows = seq<Row>

  /** `queued` or `accepted`: no outcome has been recorded. */
  predicate Open(r: Row) {
    r.status == Queued || r.status == Accepted
  }

  // ----- time -----

  /** `datetime('now')` keeps whole seconds. */
  function Sec(ms: int): int {
    ms / 1000
  }

  /** `datetime('now', '-<window>/1000 seconds')`: subtract in milliseconds, then drop the fraction. */
  function Cutoff(now: int, window: nat): int {
    Sec(now - window)
  }

  // ----- enqueue -----

  function NewRow(sessions: Sessions, session: SessionId, now: int): Row {
    Row(session, Queued, None, None, Sec(now), None, None,
        if Ended(sessions, session) then Some(Sec(now)) else None, None, None, None)
  }

  // ----- claim -----

  predicate LeaseOut(r: Row, cutoff: int) {
    r.claimedAt.None? || r.claimedAt.value <= cutoff
  }

  predicate Claimable(sessions: Sessions, r: Row, cutoff: int) {
    r.stoppedAt.None? && r.status == Queued && LeaseOut(r, cutoff) && !Ended(sessions, r.session)
  }

  /** A claim may be narrowed to a session, an environment or both. The source tests
      both arguments for truthiness, so an empty string narrows nothing. */
  datatype Scope = Scope(session: Option<SessionId>, environment: Option<string>)

  predicate Given(x: Option<string>) {
    x.Some? && x.value != ""
  }

  predicate InEnvironment(sessions: Sessions, r: Row, environment: string) {
    r.session in sessions && sessions[r.session].environment == environment
  }

  predicate InScope(sessions: Sessions, r: Row, scope: Scope) {
    && (Given(scope.session) ==> r.session == scope.session.value)
    && (Given(scope.environment) ==> InEnvironment(sessions, r, scope.environment.value))
  }

  /** Queue order: `created_at`, then rowid. */
  predicate Before(rows: Rows, i: nat, j: nat)
    requires i < |rows| && j < |rows|
  {
    rows[i].createdAt < rows[j].createdAt || (rows[i].createdAt == rows[j].createdAt && i < j)
  }

  /** `SELECT id … WHERE pick ORDER BY created_at ASC, rowid ASC LIMIT 1`. */
  function Oldest(rows: Rows, pick: Row -> bool): (found: Option<nat>)
    ensures found.None? ==> forall i: nat :: i < |rows| ==> !pick(rows[i])
    ensures found.Some? ==>
              && found.value < |rows| && pick(rows[found.value])
              && forall j: nat :: j < |rows| && pick(rows[j]) && j != found.value ==> Before(rows, found.value, j)
  {
    OldestUpTo(rows, pick, |rows|)
  }

  function OldestUpTo(rows: Rows, pick: Row -> bool, n: nat): (found: Option<nat>)
    requires n <= |rows|
    ensures found.None? ==> forall i: nat :: i < n ==> !pick(rows[i])
    ensures found.Some? ==>
              && found.value < n && pick(rows[found.value])
              && forall j: nat :: j < n && pick(rows[j]) && j != found.value ==> Before(rows, found.value, j)
  {
    if n == 0 then None
    else
      var best := OldestUpTo(rows, pick, n - 1);
      if pick(rows[n - 1]) && (best.None? || rows[n - 1].createdAt < rows[best.value].createdAt)
      then Some(n - 1)
      else best
  }

  /** An accepted claim whose lease ran out, unless its session stopped it, is recorded as `unknown`. */
  function SweepRow(r: Row, cutoff: int): Row {
    if r.status == Accepted && r.stoppedAt.None? && r.claimedAt.Some? && r.claimedAt.value <= cutoff
    then r.(status := Unknown)
    else r
  }

  function Sweep(rows: Rows, cutoff: int): (out: Rows)
    ensures |out| == |rows|
    ensures forall i: nat :: i < |rows| ==> out[i] == SweepRow(rows[i], cutoff)
  {
    seq(|rows|, i requires 0 <= i < |rows| => SweepRow(rows[i], cutoff))
  }

  function ClaimRow(r: Row, worker: WorkerId, now: int): Row {
    r.(claimedBy := Some(worker), claimedAt := Some(Sec(now)),
       acceptedAt := None, abandonedAt := None, heartbeatAt := None)
  }

  function Selects(sessions: Sessions, scope: Scope, cutoff: int): Row -> bool {
    (r: Row) => Claimable(sessions, r, cutoff) && InScope(sessions, r, scope)
  }

  /** The readings of the clock that a claim's three statements see. */
  datatype Readings = Readings(sweep: int, select: int, update: int)

  function ClaimOp(rows: Rows, sessions: Sessions, lease: nat, worker: WorkerId, scope: Scope,
                   reclaim: nat, at: Readings): (out: (Rows, Option<nat>))
    ensures |out.0| == |rows|
    ensures out.1.Some? ==> out.1.value < |rows|
  {
    var swept := Sweep(rows, Cutoff(at.sweep, lease));
    match Oldest(swept, Selects(sessions, scope, Cutoff(at.select, reclaim)))
    case None => (swept, None)
    case Some(i) =>
      if Claimable(sessions, swept[i], Cutoff(at.update, reclaim))
      then (swept[i := ClaimRow(swept[i], worker, at.update)], Some(i))
      else (swept, None)
  }

  // ----- accept -----

  datatype AcceptAnswer = AcceptedNow | AcceptNotFound | AcceptNotHolder | AcceptLeaseLost

  predicate InsideLease(r: Row, cutoff: int) {
    r.claimedAt.Some? && r.claimedAt.value > cutoff
  }

  function AcceptRow(r: Row, now: int): Row {
    r.(acceptedAt := Some(Sec(now)), status := Accepted)
  }

  function AcceptOp(rows: Rows, lease: nat, id: nat, worker: WorkerId, now: int): (out: (Rows, AcceptAnswer))
    ensures |out.0| == |rows|
  {
    if id >= |rows| then (rows, AcceptNotFound)
    else
      var r := rows[id];
      if Open(r) && r.claimedBy == Some(worker) && r.stoppedAt.None? && InsideLease(r, Cutoff(now, lease))
      then (rows[id := AcceptRow(r, now)], AcceptedNow)
      else (rows, if r.stoppedAt.Some? || (r.claimedBy == Some(worker) && Open(r)) then AcceptLeaseLost
                  else AcceptNotHolder)
  }

  function AcceptScopedOp(rows: Rows, lease: nat, id: nat, worker: Option<WorkerId>, now: int)
    : (out: (Rows, AcceptAnswer))
    ensures |out.0| == |rows|
  {
    if id >= |rows| then (rows, AcceptNotFound)
    else
      var r := rows[id];
      if Open(r) && r.stoppedAt.None? && InsideLease(r, Cutoff(now, lease))
         && (worker.None? || r.claimedBy == worker)
      then (rows[id := AcceptRow(r, now)], AcceptedNow)
      else (rows, if r.stoppedAt.None? && Given(worker) && Given(r.claimedBy) && r.claimedBy != worker
                  then AcceptNotHolder else AcceptLeaseLost)
  }

  // ----- renewals -----

  datatype LeaseAnswer = Renewed | LeaseNotFound | LeaseNotHolder | LeaseLost

  function HeartbeatOp(rows: Rows, id: nat, worker: WorkerId, now: int): (out: (Rows, LeaseAnswer))
    ensures |out.0| == |rows|
  {
    if id >= |rows| then (rows, LeaseNotFound)
    else
      var r := rows[id];
      if Open(r) && r.claimedBy == Some(worker) && r.stoppedAt.None?
      then (rows[id := r.(claimedAt := Some(Sec(now)))], Renewed)
      else (rows, if r.stoppedAt.Some? then LeaseLost else LeaseNotHolder)
  }

  /** The text of `expected_last_heartbeat`: the sentinel, a rendered timestamp, or anything else. */
  datatype Expected = NoHeartbeat | Stamp(sec: int) | OtherText

  datatype BeatAnswer = Beat(last: int) | BeatNotFound | BeatPreconditionFailed | BeatNotHolder | BeatLeaseLost

  predicate Anchored(r: Row, expected: Option<Expected>) {
    match expected
    case None => true
    case Some(NoHeartbeat) => r.heartbeatAt.None?
    case Some(Stamp(s)) => r.heartbeatAt == Some(s)
    case Some(OtherText) => false
  }

  predicate BeatAdmits(r: Row, worker: Option<WorkerId>, expected: Option<Expected>) {
    && Open(r) && r.stoppedAt.None?
    && (worker.None? || r.claimedBy == worker || (r.heartbeatAt.None? && expected == Some(NoHeartbeat)))
    && Anchored(r, expected)
  }

  function BeatRow(r: Row, worker: Option<WorkerId>, now: int): Row {
    r.(claimedAt := Some(Sec(now)), heartbeatAt := Some(Sec(now)),
       claimedBy := if r.claimedBy.None? && worker.Some? then worker else r.claimedBy)
  }

  function HeartbeatScopedOp(rows: Rows, id: nat, worker: Option<WorkerId>, expected: Option<Expected>, now: int)
    : (out: (Rows, BeatAnswer))
    ensures |out.0| == |rows|
  {
    if id >= |rows| then (rows, BeatNotFound)
    else
      var r := rows[id];
      if BeatAdmits(r, worker, expected) then (rows[id := BeatRow(r, worker, now)], Beat(Sec(now)))
      else (rows, if !Anchored(r, expected) then BeatPreconditionFailed
                  else if r.stoppedAt.Some? then BeatLeaseLost
                  else BeatNotHolder)
  }

  // ----- complete -----

  datatype CompleteAnswer = Completed | CompleteNotFound | CompleteNotHolder

  function CompleteRow(r: Row, result: string, failed: bool, now: int): Row {
    r.(status := if failed then Failed else Applied, result := Some(result), completedAt := Some(Sec(now)))
  }

  function CompleteOp(rows: Rows, id: nat, worker: WorkerId, result: string, failed: bool, now: int)
    : (out: (Rows, CompleteAnswer))
    ensures |out.0| == |rows|
  {
    if id >= |rows| then (rows, CompleteNotFound)
    else if Open(rows[id]) && rows[id].claimedBy == Some(worker)
    then (rows[id := CompleteRow(rows[id], result, failed, now)], Completed)
    else (rows, CompleteNotHolder)
  }

  // ----- stops and give-ups -----

  predicate Stoppable(r: Row) {
    Open(r) && r.stoppedAt.None?
  }

  function StopRow(r: Row, now: int): Row {
    r.(stoppedAt := Some(Sec(now)))
  }

  function StopRowOf(r: Row, session: SessionId, now: int): Row {
    if r.session == session && Stoppable(r) then StopRow(r, now) else r
  }

  function StopOp(rows: Rows, session: SessionId, now: int): (out: Rows)
    ensures |out| == |rows|
    ensures forall i: nat :: i < |rows| ==> out[i] == StopRowOf(rows[i], session, now)
  {
    seq(|rows|, i requires 0 <= i < |rows| => StopRowOf(rows[i], session, now))
  }

  function StopItemOp(rows: Rows, id: nat, now: int): (out: (Rows, bool))
    ensures |out.0| == |rows|
  {
    if id >= |rows| then (rows, false)
    else (if Stoppable(rows[id]) then rows[id := StopRow(rows[id], now)] else rows, true)
  }

  predicate GivesUp(r: Row) {
    r.status == Queued && r.stoppedAt.None? && r.abandonedAt.None? && r.acceptedAt.None?
  }

  function GiveUpOp(rows: Rows, id: nat, now: int): (out: (Rows, bool))
    ensures |out.0| == |rows|
  {
    if id < |rows| && GivesUp(rows[id])
    then (rows[id := rows[id].(abandonedAt := Some(Sec(now)))], true)
    else (rows, false)
  }

  // ----- one name for every operation -----

  datatype Op =
    | Enqueue(session: SessionId, now: int)
    | Claim(worker: WorkerId, scope: Scope, reclaim: nat, at: Readings)
    | Accept(id: nat, worker: WorkerId, now: int)
    | AcceptScoped(id: nat, caller: Option<WorkerId>, now: int)
    | Heartbeat(id: nat, worker: WorkerId, now: int)
    | HeartbeatScoped(id: nat, caller: Option<WorkerId>, expected: Option<Expected>, now: int)
    | Complete(id: nat, worker: WorkerId, result: string, failed: bool, now: int)
    | Stop(session: SessionId, now: int)
    | StopItem(id: nat, now: int)
    | GiveUp(id: nat, now: int)

  datatype Answer =
    | Enqueued(id: nat)
    | Handed(item: Option<nat>)
    | OnAccept(accept: AcceptAnswer)
    | OnRenewal(lease: LeaseAnswer)
    | OnBeat(beat: BeatAnswer)
    | OnComplete(completion: CompleteAnswer)
    | Silent

  /** What the completion hook is called with: an item's id, and the row read back after the update. */
  type HookCall = (nat, Row)

  function HookOf(out: Rows, op: Op, answer: Answer): Option<HookCall> {
    if op.Complete? && answer == OnComplete(Completed) && op.id < |out| then Some((op.id, out[op.id])) else None
  }

  function Apply(rows: Rows, sessions: Sessions, lease: nat, op: Op): (Rows, Answer) {
    match op
    case Enqueue(session, now) => (rows + [NewRow(sessions, session, now)], Enqueued(|rows|))
    case Claim(worker, scope, reclaim, at) =>
      var out := ClaimOp(rows, sessions, lease, worker, scope, reclaim, at); (out.0, Handed(out.1))
    case Accept(id, worker, now) => var out := AcceptOp(rows, lease, id, worker, now); (out.0, OnAccept(out.1))
    case AcceptScoped(id, caller, now) =>
      var out := AcceptScopedOp(rows, lease, id, caller, now); (out.0, OnAccept(out.1))
    case Heartbeat(id, worker, now) => var out := HeartbeatOp(rows, id, worker, now); (out.0, OnRenewal(out.1))
    case HeartbeatScoped(id, caller, expected, now) =>
      var out := HeartbeatScopedOp(rows, id, caller, expected, now); (out.0, OnBeat(out.1))
    case Complete(id, worker, result, failed, now) =>
      var out := CompleteOp(rows, id, worker, result, failed, now); (out.0, OnComplete(out.1))
    case Stop(session, now) => (StopOp(rows, session, now), Silent)
    case StopItem(id, now) => (StopItemOp(rows, id, now).0, Silent)
    case GiveUp(id, now) => (GiveUpOp(rows, id, now).0, Silent)
  }
}
