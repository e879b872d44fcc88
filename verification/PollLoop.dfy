/** The worker's poll loop as it is written: claim, accept, run while renewing, report. Each
    thing it does is a step of the protocol, with anything at all happening elsewhere in
    between, so what the protocol proves of every run holds of every worker process. */
module PollLoop {
  import opened Wrappers
  import opened Basics
  import opened WorkRows
  import opened Protocol
  import opened RunTruths

  /** A step of anybody but worker `w`. */
  predicate Foreign(w: WorkerId, step: Step) {
    match step
    case Serve(_, _) => true
    case Other(_) => true
    case ChangeSession(_, _) => true
    case SendClaim(v, _) => v != w
    case GetItem(v, _) => v != w
    case GetGoAhead(v) => v != w
    case SendRenewal(v) => v != w
    case GetLeaseLost(v, _) => v != w
    case SendReport(v, _, _) => v != w
    case StartOver(v) => v != w
  }

  predicate AllForeign(w: WorkerId, steps: seq<Step>) {
    steps != [] ==> Foreign(w, steps[0]) && AllForeign(w, steps[1..])
  }

  /** The items one worker executed, in order. */
  function ExecutedBy(xs: seq<Execution>, w: WorkerId): seq<nat> {
    if xs == [] then []
    else ExecutedBy(xs[..|xs| - 1], w) + (if xs[|xs| - 1].worker == w then [xs[|xs| - 1].item] else [])
  }

  /** The requests one worker sent, in order. */
  function RequestsBy(sent: seq<Envelope>, w: WorkerId): seq<Request> {
    if sent == [] then []
    else RequestsBy(sent[..|sent| - 1], w) + (if sent[|sent| - 1].worker == w then [sent[|sent| - 1].request] else [])
  }

  /** What a worker has done, as the rest of the system can tell. */
  datatype Deeds = Deeds(phase: Phase, requests: seq<Request>, executed: seq<nat>)

  function DeedsOf(c: Config, w: WorkerId): Deeds {
    Deeds(PhaseOf(c, w), RequestsBy(c.sent, w), ExecutedBy(c.history.executions, w))
  }

  lemma MoreRequests(sent: seq<Envelope>, e: Envelope, w: WorkerId)
    ensures RequestsBy(sent + [e], w) == RequestsBy(sent, w) + (if e.worker == w then [e.request] else [])
  {
  }

  lemma MoreExecuted(xs: seq<Execution>, x: Execution, w: WorkerId)
    ensures ExecutedBy(xs + [x], w) == ExecutedBy(xs, w) + (if x.worker == w then [x.item] else [])
  {
  }

  lemma SendKeepsDeeds(c: Config, v: WorkerId, request: Request, phase: Phase, w: WorkerId)
    requires v != w
    ensures DeedsOf(Send(c, v, request, phase), w) == DeedsOf(c, w)
  {
  }

  lemma QuietKeepsDeeds(c: Config, c': Config, w: WorkerId)
    requires c'.sent == c.sent && c'.history.executions == c.history.executions && PhaseOf(c', w) == PhaseOf(c, w)
    ensures DeedsOf(c', w) == DeedsOf(c, w)
  {
  }

  lemma StepKeepsDeeds(s: Setting, c: Config, step: Step, w: WorkerId)
    requires Foreign(w, step)
    ensures DeedsOf(Next(s, c, step), w) == DeedsOf(c, w)
  {
    if Enabled(s, c, step) {
      var c' := Next(s, c, step);
      match step
      case SendClaim(v, scope) => SendKeepsDeeds(c, v, ClaimReq(scope), AwaitClaim(|c.sent|), w);
      case GetItem(v, item) => SendKeepsDeeds(c, v, AcceptReq(item), AwaitAccept(|c.sent|, item), w);
      case SendRenewal(v) =>
        var p := PhaseOf(c, v);
        SendKeepsDeeds(c, v, RenewReq(p.item), p.(renewals := p.renewals + {|c.sent|}), w);
      case SendReport(v, result, failed) =>
        var p := PhaseOf(c, v);
        SendKeepsDeeds(c, v, CompleteReq(p.item, result, failed || p.leaseLost), AwaitReport(p.item), w);
      case GetGoAhead(v) => MoreExecuted(c.history.executions, Execution(v, PhaseOf(c, v).item), w);
      case Serve(_, _) => QuietKeepsDeeds(c, c', w);
      case Other(_) => QuietKeepsDeeds(c, c', w);
      case ChangeSession(_, _) => QuietKeepsDeeds(c, c', w);
      case GetLeaseLost(_, _) => QuietKeepsDeeds(c, c', w);
      case StartOver(_) => QuietKeepsDeeds(c, c', w);
    }
  }

  lemma {:induction false} OthersKeepDeeds(s: Setting, c: Config, steps: seq<Step>, w: WorkerId)
    requires AllForeign(w, steps)
    ensures DeedsOf(Run(s, c, steps), w) == DeedsOf(c, w)
    decreases |steps|
  {
    if steps != [] {
      StepKeepsDeeds(s, c, steps[0], w);
      OthersKeepDeeds(s, Next(s, c, steps[0]), steps[1..], w);
    }
  }

  lemma {:induction false} RunInTwo(s: Setting, c: Config, a: seq<Step>, b: seq<Step>)
    ensures Run(s, c, a + b) == Run(s, Run(s, c, a), b)
    decreases |a|
  {
    if a == [] {
      assert a + b == b;
    } else {
      RunInTwo(s, Next(s, c, a[0]), a[1..], b);
      assert (a + b)[1..] == a[1..] + b;
    }
  }

  lemma RunOne(s: Setting, c: Config, step: Step)
    ensures Run(s, c, [step]) == Next(s, c, step)
  {
  }

  /** What one iteration meets: the item its claim's reply names, whether the go-ahead and each
      renewal's answer arrive in time, and how the command ends. */
  datatype Luck = Luck(claimed: Option<nat>, goAhead: bool, renewals: seq<bool>, result: string, failed: bool)

  /** Where a worker's question leaves the system: its own step, then whatever the world does. */
  function Asked(s: Setting, world: Config -> seq<Step>, c: Config, step: Step): Config {
    var sent := Next(s, c, step);
    Run(s, sent, world(sent))
  }

  class Worker {
    const s: Setting
    const id: WorkerId
    const scope: Scope
    const once: bool
    /** What everybody else does while this worker waits for an answer. */
    const world: Config -> seq<Step>
    /** The whole system, of which the worker sees its own phase and the replies to it. */
    var c: Config
    ghost var trace: seq<Step>

    ghost predicate Valid()
      reads this
    {
      id in s.pollers && (forall x: Config :: AllForeign(id, world(x))) && c == Run(s, START, trace)
    }

    function Done(): Deeds
      reads this
    {
      DeedsOf(c, id)
    }

    constructor (s: Setting, id: WorkerId, scope: Scope, once: bool, world: Config -> seq<Step>)
      requires id in s.pollers && forall x: Config :: AllForeign(id, world(x))
      ensures this.s == s && this.id == id && this.scope == scope && this.once == once && this.world == world
      ensures Valid() && Done() == Deeds(Idle, [], [])
    {
      this.s, this.id, this.scope, this.once, this.world := s, id, scope, once, world;
      c, trace := START, [];
    }

    /** One step of this worker. */
    method Act(step: Step)
      requires Valid() && Enabled(s, c, step)
      modifies this
      ensures Valid() && c == Next(s, old(c), step)
    {
      RunInTwo(s, START, trace, [step]);
      RunOne(s, c, step);
      c := Next(s, c, step);
      trace := trace + [step];
    }

    /** Whatever the queue, its other callers and the other workers do meanwhile. */
    method Elsewhere()
      requires Valid()
      modifies this
      ensures Valid() && c == Run(s, old(c), world(old(c))) && Done() == old(Done())
    {
      var steps := world(c);
      RunInTwo(s, START, trace, steps);
      OthersKeepDeeds(s, c, steps, id);
      c := Run(s, c, steps);
      trace := trace + steps;
    }

    /** Sends one request and lets the world go on. */
    method Ask(step: Step, request: Request, phase: Phase)
      requires Valid() && Enabled(s, c, step) && Next(s, c, step) == Send(c, id, request, phase)
      modifies this
      ensures Valid() && c == Asked(s, world, old(c), step)
      ensures Done() == Deeds(phase, old(Done()).requests + [request], old(Done()).executed)
    {
      MoreRequests(c.sent, Envelope(id, request), id);
      Act(step);
      Elsewhere();
    }

    method StopWaiting()
      requires Valid()
      modifies this
      ensures Valid() && Done() == old(Done()).(phase := Idle)
    {
      Act(StartOver(id));
    }

    method ClaimWorkItem(luck: Luck) returns (item: Option<nat>)
      requires Valid() && PhaseOf(c, id).Idle?
      modifies this
      ensures Valid()
      ensures Done().requests == old(Done()).requests + [ClaimReq(scope)] && Done().executed == old(Done()).executed
      ensures c == Asked(s, world, old(c), SendClaim(id, scope))
      ensures item == if luck.claimed.Some? && Enabled(s, c, GetItem(id, luck.claimed.value)) then luck.claimed
                      else None
    {
      Ask(SendClaim(id, scope), ClaimReq(scope), AwaitClaim(|c.sent|));
      var arrived := luck.claimed.Some? && (PhaseOf(c, id).n, Handed(luck.claimed)) in c.replies;
      item := if arrived then luck.claimed else None;
    }

    /** Anything but an acceptance that arrives is a refusal. */
    method AcceptWorkItem(item: nat, luck: Luck) returns (accepted: bool)
      requires Valid() && Enabled(s, c, GetItem(id, item))
      modifies this
      ensures Valid() && c == Asked(s, world, old(c), GetItem(id, item))
      ensures Done().requests == old(Done()).requests + [AcceptReq(item)] && Done().executed == old(Done()).executed
      ensures PhaseOf(c, id).AwaitAccept? && PhaseOf(c, id).item == item
      ensures accepted <==> luck.goAhead && Enabled(s, c, GetGoAhead(id))
    {
      Ask(GetItem(id, item), AcceptReq(item), AwaitAccept(|c.sent|, item));
      accepted := luck.goAhead && (PhaseOf(c, id).n, OnAccept(AcceptedNow)) in c.replies;
    }

    /** One tick of the timer: only an explicit `work_lease_lost` that arrives stops the item. */
    method RenewOnce(item: nat, answered: bool, leaseLost: bool) returns (lost: bool)
      requires Valid() && PhaseOf(c, id).Running?
      requires PhaseOf(c, id).item == item && PhaseOf(c, id).leaseLost == leaseLost
      modifies this
      ensures Valid() && PhaseOf(c, id).Running? && PhaseOf(c, id).item == item && PhaseOf(c, id).leaseLost == lost
      ensures lost == (leaseLost || (answered && (old(|c.sent|), OnRenewal(LeaseLost)) in c.replies))
      ensures Done().executed == old(Done()).executed && Done().requests == old(Done()).requests + [RenewReq(item)]
    {
      lost := leaseLost;
      var n, p := |c.sent|, PhaseOf(c, id);
      Ask(SendRenewal(id), RenewReq(p.item), p.(renewals := p.renewals + {n}));
      if answered && (n, OnRenewal(LeaseLost)) in c.replies {
        lost := true;
        Act(GetLeaseLost(id, n));
      }
    }

    /** The timer's renewals while the command runs. */
    method RenewWhileRunning(item: nat, luck: Luck) returns (leaseLost: bool)
      requires Valid() && PhaseOf(c, id) == Running(item, false, {})
      modifies this
      ensures Valid() && PhaseOf(c, id).Running? && PhaseOf(c, id).item == item
      ensures PhaseOf(c, id).leaseLost == leaseLost && Done().executed == old(Done()).executed
      ensures Done().requests == old(Done()).requests + Renewals(item, |luck.renewals|)
    {
      leaseLost := false;
      ghost var was := Done();
      var k := 0;
      assert was.requests + Renewals(item, 0) == was.requests;
      while k < |luck.renewals|
        invariant 0 <= k <= |luck.renewals| && Valid()
        invariant PhaseOf(c, id).Running? && PhaseOf(c, id).item == item && PhaseOf(c, id).leaseLost == leaseLost
        invariant Done().executed == was.executed
        invariant Done().requests == was.requests + Renewals(item, k)
      {
        leaseLost := RenewOnce(item, luck.renewals[k], leaseLost);
        k := k + 1;
      }
    }

    /** Runs an accepted item and reports it: once, as failed when the command failed or the
        lease was lost, and never again whatever becomes of the report. */
    method RunAndReport(item: nat, luck: Luck) returns (leaseLost: bool)
      requires Valid() && Enabled(s, c, GetGoAhead(id)) && PhaseOf(c, id).item == item
      modifies this
      ensures Valid() && PhaseOf(c, id).Idle?
      ensures Done().executed == old(Done()).executed + [item]
      ensures Done().requests == old(Done()).requests + Renewals(item, |luck.renewals|)
                                 + [CompleteReq(item, luck.result, luck.failed || leaseLost)]
    {
      MoreExecuted(c.history.executions, Execution(id, item), id);
      Act(GetGoAhead(id));
      leaseLost := RenewWhileRunning(item, luck);
      Ask(SendReport(id, luck.result, luck.failed), CompleteReq(item, luck.result, luck.failed || leaseLost),
          AwaitReport(item));
      StopWaiting();
    }

    /** A claimed item: run exactly when its go-ahead arrived. */
    method HandleItem(item: nat, luck: Luck) returns (ran: bool, leaseLost: bool)
      requires Valid() && Enabled(s, c, GetItem(id, item))
      modifies this
      ensures Valid() && PhaseOf(c, id).Idle?
      ensures ran <==> luck.goAhead && Enabled(s, Asked(s, world, old(c), GetItem(id, item)), GetGoAhead(id))
      ensures Done().executed == old(Done()).executed + if ran then [item] else []
      ensures Done().requests == old(Done()).requests + ItemRequests(luck, item, ran, leaseLost)
    {
      leaseLost := false;
      ran := AcceptWorkItem(item, luck);
      if ran {
        leaseLost := RunAndReport(item, luck);
      } else {
        StopWaiting();
      }
    }

    /** One iteration of the loop: it takes the item exactly when the claim's reply arrived, runs
        it exactly when the go-ahead arrived, reports exactly what it ran, and sends nothing else. */
    method PollOnce(luck: Luck) returns (item: Option<nat>, ran: bool, leaseLost: bool)
      requires Valid() && PhaseOf(c, id).Idle?
      modifies this
      ensures Valid() && PhaseOf(c, id).Idle?
      ensures var heard := Asked(s, world, old(c), SendClaim(id, scope));
        && item == (if luck.claimed.Some? && Enabled(s, heard, GetItem(id, luck.claimed.value)) then luck.claimed
                    else None)
        && (ran <==> item.Some? && luck.goAhead
                     && Enabled(s, Asked(s, world, heard, GetItem(id, item.value)), GetGoAhead(id)))
      ensures Done().executed == old(Done()).executed + if ran then [item.value] else []
      ensures Done().requests == old(Done()).requests + [ClaimReq(scope)]
                                 + if item.None? then [] else ItemRequests(luck, item.value, ran, leaseLost)
    {
      ran, leaseLost := false, false;
      item := ClaimWorkItem(luck);
      if item.None? {
        StopWaiting();
      } else {
        ran, leaseLost := HandleItem(item.value, luck);
      }
    }

    /** The loop: one claim an iteration, one iteration only when it is to run once. Over the whole run
        nothing is executed twice, by this worker or any other; and what it executed it was given
        the go-ahead for and reported, in order, and nothing else. */
    method Poll(lucks: seq<Luck>) returns (ran: seq<nat>)
      requires Valid() && PhaseOf(c, id).Idle?
      modifies this
      ensures Valid() && Reachable(s, c) && PhaseOf(c, id).Idle?
      ensures Done().executed == old(Done()).executed + ran
      ensures ClaimsIn(Done().requests)
           == ClaimsIn(old(Done()).requests) + if once && lucks != [] then 1 else |lucks|
      ensures ReportedIn(Done().requests) == ReportedIn(old(Done()).requests) + ran
      ensures forall i, j :: 0 <= i < j < |c.history.executions| ==>
                c.history.executions[i].item != c.history.executions[j].item
    {
      var k := 0;
      ran := [];
      ghost var was := Done();
      assert was.executed + [] == was.executed && ReportedIn(was.requests) + [] == ReportedIn(was.requests);
      while k < |lucks|
        invariant 0 <= k <= |lucks| && Valid() && PhaseOf(c, id).Idle?
        invariant once ==> k == 0
        invariant Went(was, Done(), ran, k)
      {
        ghost var before := Done();
        var item, started, leaseLost := PollOnce(lucks[k]);
        OneIteration(was, before, Done(), lucks[k], item, started, leaseLost, scope, ran, k);
        ran := if started then ran + [item.value] else ran;
        k := k + 1;
        if once {
          break;
        }
      }
      RunKeepsInv(s, START, trace);
    }
  }

  /** How many claims some requests hold. */
  function ClaimsIn(requests: seq<Request>): nat {
    if requests == [] then 0
    else ClaimsIn(requests[..|requests| - 1]) + if requests[|requests| - 1].ClaimReq? then 1 else 0
  }

  /** The items that they report, in order. */
  function ReportedIn(requests: seq<Request>): seq<nat> {
    if requests == [] then []
    else
      var last := requests[|requests| - 1];
      ReportedIn(requests[..|requests| - 1]) + if last.CompleteReq? then [last.item] else []
  }

  lemma {:induction false} RequestsJoin(a: seq<Request>, b: seq<Request>)
    ensures ClaimsIn(a + b) == ClaimsIn(a) + ClaimsIn(b) && ReportedIn(a + b) == ReportedIn(a) + ReportedIn(b)
    decreases |b|
  {
    if b == [] {
      assert a + b == a;
    } else {
      var n := |b| - 1;
      RequestsJoin(a, b[..n]);
      assert (a + b)[..|a + b| - 1] == a + b[..n] && (a + b)[|a + b| - 1] == b[n];
    }
  }

  lemma {:induction false} RenewalsAreNeither(item: nat, k: nat)
    ensures ClaimsIn(Renewals(item, k)) == 0 && ReportedIn(Renewals(item, k)) == []
    decreases k
  {
    if k > 0 {
      RenewalsAreNeither(item, k - 1);
      assert Renewals(item, k)[..k - 1] == Renewals(item, k - 1);
    }
  }

  lemma OneRequest(request: Request)
    ensures ClaimsIn([request]) == (if request.ClaimReq? then 1 else 0)
    ensures ReportedIn([request]) == if request.CompleteReq? then [request.item] else []
  {
    assert [request][..0] == [];
  }

  lemma ItemRequestsAre(luck: Luck, item: nat, ran: bool, leaseLost: bool)
    ensures ClaimsIn(ItemRequests(luck, item, ran, leaseLost)) == 0
    ensures ReportedIn(ItemRequests(luck, item, ran, leaseLost)) == if ran then [item] else []
  {
    OneRequest(AcceptReq(item));
    if ran {
      var report := CompleteReq(item, luck.result, luck.failed || leaseLost);
      var renewals := Renewals(item, |luck.renewals|);
      OneRequest(report);
      RenewalsAreNeither(item, |luck.renewals|);
      RequestsJoin(renewals, [report]);
      RequestsJoin([AcceptReq(item)], renewals + [report]);
    } else {
      RequestsJoin([AcceptReq(item)], []);
    }
  }

  /** After `k` iterations that ran these items. */
  predicate Went(was: Deeds, now: Deeds, ran: seq<nat>, k: nat) {
    && now.executed == was.executed + ran
    && ClaimsIn(now.requests) == ClaimsIn(was.requests) + k
    && ReportedIn(now.requests) == ReportedIn(was.requests) + ran
  }

  lemma OneIteration(was: Deeds, before: Deeds, now: Deeds, luck: Luck, item: Option<nat>, started: bool,
                     leaseLost: bool, scope: Scope, ran: seq<nat>, k: nat)
    requires Went(was, before, ran, k) && (started ==> item.Some?)
    requires now.executed == before.executed + if started then [item.value] else []
    requires now.requests == before.requests + [ClaimReq(scope)]
                             + if item.None? then [] else ItemRequests(luck, item.value, started, leaseLost)
    ensures Went(was, now, if started then ran + [item.value] else ran, k + 1)
  {
    OneRequest(ClaimReq(scope));
    RequestsJoin(before.requests, [ClaimReq(scope)]);
    var more := if item.None? then [] else ItemRequests(luck, item.value, started, leaseLost);
    if item.Some? { ItemRequestsAre(luck, item.value, started, leaseLost); }
    RequestsJoin(before.requests + [ClaimReq(scope)], more);
    if started {
      Regroup(was.executed, ran, [item.value]);
      Regroup(ReportedIn(was.requests), ran, [item.value]);
    }
  }

  function Renewals(item: nat, k: nat): (out: seq<Request>)
    ensures |out| == k
  {
    if k == 0 then [] else Renewals(item, k - 1) + [RenewReq(item)]
  }

  /** The requests about one item: an accept, and if it ran its renewals and one report. */
  function ItemRequests(luck: Luck, item: nat, ran: bool, leaseLost: bool): seq<Request> {
    [AcceptReq(item)]
    + if !ran then []
      else Renewals(item, |luck.renewals|) + [CompleteReq(item, luck.result, luck.failed || leaseLost)]
  }
}
