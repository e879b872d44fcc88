/** The queue with any number of poll-loop workers, as a step system.

    Requests and replies are separate messages. A request that was sent can be served
    late, more than once, or never; a reply can arrive late or never; a worker can stop
    waiting for any answer, and can crash and start over at any moment. Every statement
    reads whatever the clock says. The history fields are only written. */
module Protocol {
  import opened Wrappers
  import opened WorkRows
  import opened RowHistory

  datatype Request =
    | ClaimReq(scope: Scope)
    | AcceptReq(item: nat)
    | RenewReq(item: nat)
    | CompleteReq(item: nat, result: string, failed: bool)

  datatype Envelope = Envelope(worker: WorkerId, request: Request)

  /** Where one worker's poll loop is. `Running` carries what `renewWhileRunning` closes
      over: whether a renewal was told the lease is lost, and the renewals sent. */
  datatype Phase =
    | Idle
    | AwaitClaim(n: nat)
    | AwaitAccept(n: nat, item: nat)
    | Running(item: nat, leaseLost: bool, renewals: set<nat>)
    | AwaitReport(item: nat)

  datatype Execution = Execution(worker: WorkerId, item: nat)

  datatype Completion = Completion(item: nat, worker: WorkerId, result: string, failed: bool)

  datatype History = History(
    executions: seq<Execution>,
    handed: set<nat>,
    accepted: set<nat>,
    completions: seq<Completion>,
    hooked: seq<HookCall>,
    renewedAt: map<nat, int>)

  datatype Config = Config(
    rows: Rows,
    sessions: Sessions,
    sent: seq<Envelope>,
    replies: set<(nat, Answer)>,
    phases: map<WorkerId, Phase>,
    history: History)

  /** The queue's lease and the identities that run a poll loop. */
  datatype Setting = Setting(lease: nat, pollers: set<WorkerId>)

  const START := Config([], map[], [], {}, map[], History([], {}, {}, [], [], map[]))

  function PhaseOf(c: Config, w: WorkerId): Phase {
    if w in c.phases then c.phases[w] else Idle
  }

  // ----- steps -----

  datatype Step =
    // The queue serves a request that was sent, now or long after, for the first time or again.
    | Serve(n: nat, at: Readings)
    // Anyone else uses the queue: enqueuing, the official wire, stops, give-ups, other workers.
    | Other(op: Op)
    | ChangeSession(id: SessionId, session: Session)
    | SendClaim(w: WorkerId, scope: Scope)
    | GetItem(w: WorkerId, item: nat)
    | GetGoAhead(w: WorkerId)
    | SendRenewal(w: WorkerId)
    | GetLeaseLost(w: WorkerId, n: nat)
    | SendReport(w: WorkerId, result: string, failed: bool)
    // A timeout, a refusal, a finished report, or a crash and restart.
    | StartOver(w: WorkerId)

  function OpFor(e: Envelope, lease: nat, at: Readings): Op {
    match e.request
    case ClaimReq(scope) => Claim(e.worker, scope, lease, at)
    case AcceptReq(item) => Accept(item, e.worker, at.update)
    case RenewReq(item) => Heartbeat(item, e.worker, at.update)
    case CompleteReq(item, result, failed) => Complete(item, e.worker, result, failed, at.update)
  }

  function HandOutOf(op: Op, answer: Answer): Option<nat> {
    if op.Claim? && answer.Handed? then answer.item else None
  }

  /** The item whose lease an operation started or renewed, and the clock it read. */
  function RenewalOf(op: Op, answer: Answer): Option<(nat, int)> {
    match op
    case Claim(_, _, _, at) =>
      if HandOutOf(op, answer).Some? then Some((answer.item.value, at.update)) else None
    case Heartbeat(id, _, now) => if answer == OnRenewal(Renewed) then Some((id, now)) else None
    case HeartbeatScoped(id, _, _, now) =>
      if answer.OnBeat? && answer.beat.Beat? then Some((id, now)) else None
    case _ => None
  }

  function AcceptanceOf(op: Op, answer: Answer): Option<nat> {
    if (op.Accept? || op.AcceptScoped?) && answer == OnAccept(AcceptedNow) then Some(op.id) else None
  }

  function CompletionOf(op: Op, answer: Answer): Option<Completion> {
    if op.Complete? && answer == OnComplete(Completed)
    then Some(Completion(op.id, op.worker, op.result, op.failed))
    else None
  }

  function Record(h: History, out: Rows, op: Op, answer: Answer): History {
    var handed, renewal := HandOutOf(op, answer), RenewalOf(op, answer);
    var acceptance, completion := AcceptanceOf(op, answer), CompletionOf(op, answer);
    var hook := HookOf(out, op, answer);
    History(h.executions,
            if handed.Some? then h.handed + {handed.value} else h.handed,
            if acceptance.Some? then h.accepted + {acceptance.value} else h.accepted,
            if completion.Some? then h.completions + [completion.value] else h.completions,
            if hook.Some? then h.hooked + [hook.value] else h.hooked,
            if renewal.Some? then h.renewedAt[renewal.value.0 := renewal.value.1] else h.renewedAt)
  }

  /** One queue operation, as one atomic change of the rows and the history. */
  function Operate(s: Setting, c: Config, op: Op): Config {
    var (rows, answer) := Apply(c.rows, c.sessions, s.lease, op);
    c.(rows := rows, history := Record(c.history, rows, op, answer))
  }

  function Send(c: Config, w: WorkerId, request: Request, phase: Phase): Config {
    c.(sent := c.sent + [Envelope(w, request)], phases := c.phases[w := phase])
  }

  /** Completions are reported only by whoever ran the item, so nobody reports under a
      poll loop's name but that loop; every other operation is free to all. */
  predicate Enabled(s: Setting, c: Config, step: Step) {
    match step
    case Serve(n, _) => n < |c.sent|
    case Other(op) => op.Complete? ==> op.worker !in s.pollers
    case ChangeSession(id, session) =>
      id in c.sessions ==>
        && session.environment == c.sessions[id].environment
        && session.status in Transitions(c.sessions[id].status)
    case SendClaim(w, _) => w in s.pollers && PhaseOf(c, w).Idle?
    case GetItem(w, item) =>
      var p := PhaseOf(c, w); p.AwaitClaim? && (p.n, Handed(Some(item))) in c.replies
    case GetGoAhead(w) =>
      var p := PhaseOf(c, w); p.AwaitAccept? && (p.n, OnAccept(AcceptedNow)) in c.replies
    case SendRenewal(w) => PhaseOf(c, w).Running?
    case GetLeaseLost(w, n) =>
      var p := PhaseOf(c, w); p.Running? && n in p.renewals && (n, OnRenewal(LeaseLost)) in c.replies
    case SendReport(w, _, _) => PhaseOf(c, w).Running?
    case StartOver(w) => true
  }

  function Take(s: Setting, c: Config, step: Step): Config
    requires Enabled(s, c, step)
  {
    match step
    case Serve(n, at) =>
      var op := OpFor(c.sent[n], s.lease, at);
      Operate(s, c, op).(replies := c.replies + {(n, Apply(c.rows, c.sessions, s.lease, op).1)})
    case Other(op) => Operate(s, c, op)
    case ChangeSession(id, session) => c.(sessions := c.sessions[id := session])
    case SendClaim(w, scope) => Send(c, w, ClaimReq(scope), AwaitClaim(|c.sent|))
    case GetItem(w, item) => Send(c, w, AcceptReq(item), AwaitAccept(|c.sent|, item))
    case GetGoAhead(w) =>
      var item := PhaseOf(c, w).item;
      c.(phases := c.phases[w := Running(item, false, {})],
         history := c.history.(executions := c.history.executions + [Execution(w, item)]))
    case SendRenewal(w) =>
      var p := PhaseOf(c, w);
      Send(c, w, RenewReq(p.item), p.(renewals := p.renewals + {|c.sent|}))
    case GetLeaseLost(w, n) => c.(phases := c.phases[w := PhaseOf(c, w).(leaseLost := true)])
    case SendReport(w, result, failed) =>
      var p := PhaseOf(c, w);
      Send(c, w, CompleteReq(p.item, result, failed || p.leaseLost), AwaitReport(p.item))
    case StartOver(w) => c.(phases := c.phases[w := Idle])
  }

  /** A step that cannot be taken leaves everything as it is. */
  function Next(s: Setting, c: Config, step: Step): Config {
    if Enabled(s, c, step) then Take(s, c, step) else c
  }

  function Run(s: Setting, c: Config, steps: seq<Step>): Config
    decreases |steps|
  {
    if steps == [] then c else Run(s, Next(s, c, steps[0]), steps[1..])
  }

  // ----- what every reachable configuration satisfies -----

  /** An item that somebody started has its holder and can no longer be handed out. */
  ghost predicate Held(rows: Rows, e: Execution) {
    e.item < |rows| && rows[e.item].status != Queued && rows[e.item].claimedBy == Some(e.worker)
  }

  ghost predicate GoAhead(c: Config, n: nat, w: WorkerId, item: nat) {
    && n < |c.sent| && c.sent[n] == Envelope(w, AcceptReq(item))
    && (n, OnAccept(AcceptedNow)) in c.replies
  }

  ghost predicate HeldInv(c: Config) {
    && AllWf(c.rows)
    && (forall e :: e in c.history.executions ==> Held(c.rows, e))
    && (forall n, w, item :: GoAhead(c, n, w, item) ==> Held(c.rows, Execution(w, item)))
  }

  /** Only requests that were sent have replies, and a waiting worker waits for its own request. */
  ghost predicate MessagesInv(c: Config) {
    && (forall m :: m in c.replies ==> m.0 < |c.sent|)
    && (forall w :: w in c.phases && c.phases[w].AwaitClaim? ==>
          var n := c.phases[w].n; n < |c.sent| && c.sent[n].worker == w && c.sent[n].request.ClaimReq?)
    && (forall w :: w in c.phases && c.phases[w].AwaitAccept? ==>
          var n := c.phases[w].n; n < |c.sent| && c.sent[n] == Envelope(w, AcceptReq(c.phases[w].item)))
  }

  /** A worker that is about to start an item has not started it before. */
  ghost predicate FreshInv(c: Config) {
    && (forall w, item :: w in c.phases && c.phases[w].AwaitClaim? && (c.phases[w].n, Handed(Some(item))) in c.replies
          ==> Execution(w, item) !in c.history.executions)
    && (forall w :: w in c.phases && c.phases[w].AwaitAccept?
          ==> Execution(w, c.phases[w].item) !in c.history.executions)
  }

  ghost predicate OnceInv(c: Config) {
    forall i, j :: 0 <= i < j < |c.history.executions| ==>
      c.history.executions[i].item != c.history.executions[j].item
  }

  ghost predicate Inv(c: Config) {
    HeldInv(c) && MessagesInv(c) && FreshInv(c) && OnceInv(c)
  }

  // ----- preservation -----

  lemma HeldStays(rows: Rows, rows': Rows, e: Execution)
    requires AllWf(rows) && AllLater(rows, rows') && Held(rows, e)
    ensures Held(rows', e)
  {
  }

  lemma OperateKeepsHeld(s: Setting, c: Config, op: Op)
    requires HeldInv(c)
    ensures HeldInv(Operate(s, c, op))
    ensures AllLater(c.rows, Operate(s, c, op).rows)
    ensures Operate(s, c, op).history.executions == c.history.executions
  {
    var c' := Operate(s, c, op);
    ApplyMovesForward(c.rows, c.sessions, s.lease, op);
    forall e | e in c'.history.executions ensures Held(c'.rows, e) {
      HeldStays(c.rows, c'.rows, e);
    }
    forall n, w, item | GoAhead(c', n, w, item) ensures Held(c'.rows, Execution(w, item)) {
      assert GoAhead(c, n, w, item);
      HeldStays(c.rows, c'.rows, Execution(w, item));
    }
  }

  lemma ServeKeepsInv(s: Setting, c: Config, n: nat, at: Readings)
    requires Inv(c) && n < |c.sent|
    ensures Inv(Next(s, c, Serve(n, at)))
  {
    var op := OpFor(c.sent[n], s.lease, at);
    var answer := Apply(c.rows, c.sessions, s.lease, op).1;
    var c' := Next(s, c, Serve(n, at));
    OperateKeepsHeld(s, c, op);
    forall m, w, item | GoAhead(c', m, w, item) ensures Held(c'.rows, Execution(w, item)) {
      if GoAhead(c, m, w, item) {
        HeldStays(c.rows, c'.rows, Execution(w, item));
      } else {
        assert m == n && answer == OnAccept(AcceptedNow);
      }
    }
    forall w, item | w in c'.phases && c'.phases[w].AwaitClaim? && (c'.phases[w].n, Handed(Some(item))) in c'.replies
      ensures Execution(w, item) !in c'.history.executions
    {
      if (c'.phases[w].n, Handed(Some(item))) !in c.replies {
        assert op.Claim?;
        ClaimHandsOut(c.rows, c.sessions, s.lease, op);
        assert !Held(c.rows, Execution(w, item));
      }
    }
  }

  lemma SendKeepsInv(c: Config, w: WorkerId, request: Request, phase: Phase)
    requires Inv(c)
    requires match phase
      case Idle => true
      case AwaitClaim(n) => n == |c.sent| && request.ClaimReq?
      case AwaitAccept(n, item) =>
        n == |c.sent| && request == AcceptReq(item) && Execution(w, item) !in c.history.executions
      case Running(_, _, _) => true
      case AwaitReport(_) => true
    ensures Inv(Send(c, w, request, phase))
  {
    var c' := Send(c, w, request, phase);
    forall n, w', item | GoAhead(c', n, w', item) ensures Held(c'.rows, Execution(w', item)) {
      assert GoAhead(c, n, w', item);
    }
  }

  lemma GoAheadKeepsInv(s: Setting, c: Config, w: WorkerId)
    requires Inv(c) && Enabled(s, c, GetGoAhead(w))
    ensures Inv(Next(s, c, GetGoAhead(w)))
  {
    var p := PhaseOf(c, w);
    var c' := Next(s, c, GetGoAhead(w));
    assert GoAhead(c, p.n, w, p.item);
    assert Held(c.rows, Execution(w, p.item));
    forall n, w', item | GoAhead(c', n, w', item) ensures Held(c'.rows, Execution(w', item)) {
      assert GoAhead(c, n, w', item);
    }
    // Whoever started this item before would be its holder, hence this very worker.
    forall e | e in c.history.executions ensures e.item != p.item {
      assert Held(c.rows, e);
    }
  }

  lemma QuietKeepsInv(c: Config, c': Config)
    requires Inv(c)
    requires c'.rows == c.rows && c'.sent == c.sent && c'.replies == c.replies
    requires c'.history.executions == c.history.executions
    requires forall w :: w in c'.phases && (c'.phases[w].AwaitClaim? || c'.phases[w].AwaitAccept?) ==>
               w in c.phases && c.phases[w] == c'.phases[w]
    ensures Inv(c')
  {
    forall n, w, item | GoAhead(c', n, w, item) ensures Held(c'.rows, Execution(w, item)) {
      assert GoAhead(c, n, w, item);
    }
  }

  lemma StepKeepsInv(s: Setting, c: Config, step: Step)
    requires Inv(c)
    ensures Inv(Next(s, c, step))
  {
    if Enabled(s, c, step) {
      var c' := Next(s, c, step);
      match step
      case Serve(n, at) => ServeKeepsInv(s, c, n, at);
      case Other(op) => OperateKeepsHeld(s, c, op);
      case ChangeSession(_, _) => QuietKeepsInv(c, c');
      case SendClaim(w, scope) => SendKeepsInv(c, w, ClaimReq(scope), AwaitClaim(|c.sent|));
      case GetItem(w, item) => SendKeepsInv(c, w, AcceptReq(item), AwaitAccept(|c.sent|, item));
      case GetGoAhead(w) => GoAheadKeepsInv(s, c, w);
      case SendRenewal(w) =>
        var p := PhaseOf(c, w);
        SendKeepsInv(c, w, RenewReq(p.item), p.(renewals := p.renewals + {|c.sent|}));
      case GetLeaseLost(_, _) => QuietKeepsInv(c, c');
      case SendReport(w, result, failed) =>
        var p := PhaseOf(c, w);
        SendKeepsInv(c, w, CompleteReq(p.item, result, failed || p.leaseLost), AwaitReport(p.item));
      case StartOver(_) => QuietKeepsInv(c, c');
    }
  }

  lemma {:induction false} RunKeepsInv(s: Setting, c: Config, steps: seq<Step>)
    requires Inv(c)
    ensures Inv(Run(s, c, steps))
    decreases |steps|
  {
    if steps != [] {
      StepKeepsInv(s, c, steps[0]);
      RunKeepsInv(s, Next(s, c, steps[0]), steps[1..]);
    }
  }

  // ----- whole runs -----

  /** At most one execution of an item, by whichever poll loops, over any run. */
  lemma AtMostOnce(s: Setting, steps: seq<Step>, i: nat, j: nat)
    requires i < j < |Run(s, START, steps).history.executions|
    ensures var x := Run(s, START, steps).history.executions; x[i].item != x[j].item
  {
    RunKeepsInv(s, START, steps);
  }
}
