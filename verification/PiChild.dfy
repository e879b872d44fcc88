/** A Pi child process being aborted: the handlers of its events in any order, what the
    wait settles as, and what that does to the session file's lease. */
module PiChild {
  import opened Wrappers

  datatype Outcome = Exited | LaunchFailed | PromptFailed | AbortError | CleanupPending

  datatype Lease = Held | Suspended | Released

  /** `childClosed` and `treeTerminated` are what was reported: after an abort any error of the
      child counts as its close, and a terminator that throws counts as done. */
  datatype State = State(
    listening: bool,
    abortRequested: bool,
    childClosed: bool,
    treeTerminated: bool,
    forceTimer: bool,
    cleanupTimer: bool,
    watching: bool,
    settled: Option<Outcome>,
    lease: Lease)

  /** `windows`: the platform; `pid`: whether the child has one; `grace`: whether the
      termination grace period is positive. */
  datatype Options = Options(windows: bool, pid: bool, grace: bool)

  const LAUNCHED := State(true, false, false, false, false, false, false, None, Held)

  /** What can happen. `alive` is what a probe of the process group answers at that moment. */
  datatype Event =
    | AbortSignalled(alive: bool)
    | TerminationFulfilled(alive: bool)
    | ForceTimerFired(alive: bool)
    | GroupExitSeen(alive: bool)
    | CleanupTimerFired
    | ChildErrored(alive: bool)
    | ChildClosedEvent(alive: bool)
    | PromptErrored
    | WaitReturned

  /** A promise settles once. */
  function Settle(s: State, o: Outcome): State {
    if s.settled.None? then s.(settled := Some(o)) else s
  }

  /** Nothing can be using the workspace any more. */
  predicate Safe(o: Options, s: State, alive: bool) {
    s.childClosed && if o.windows then s.treeTerminated else !(o.pid && alive)
  }

  function AbortIfSafe(o: Options, s: State, alive: bool): State {
    if Safe(o, s, alive) then Settle(s, AbortError) else s
  }

  function Disarm(s: State): State {
    s.(forceTimer := false, cleanupTimer := false, listening := false)
  }

  /** One event. Timers fire and watches end only while they are armed. */
  function Next(o: Options, s: State, e: Event): State {
    match e
    case AbortSignalled(alive) =>
      if !s.listening || s.abortRequested then s
      else AbortIfSafe(o, s.(abortRequested := true, cleanupTimer := true,
                             forceTimer := s.forceTimer || (!o.windows && o.grace)), alive)
    case TerminationFulfilled(alive) =>
      if o.windows && s.abortRequested then AbortIfSafe(o, s.(treeTerminated := true), alive) else s
    case ForceTimerFired(alive) =>
      if !s.forceTimer then s
      else if !o.pid then AbortIfSafe(o, s.(forceTimer := false), alive)
      else s.(forceTimer := false, watching := true)
    case GroupExitSeen(alive) =>
      if s.watching then AbortIfSafe(o, s.(watching := false), alive) else s
    case CleanupTimerFired =>
      if s.cleanupTimer then Settle(s.(cleanupTimer := false), CleanupPending) else s
    case ChildErrored(alive) =>
      if !s.abortRequested then Settle(Disarm(s), LaunchFailed)
      else AbortIfSafe(o, s.(childClosed := true), alive)
    case ChildClosedEvent(alive) =>
      if s.abortRequested then AbortIfSafe(o, s.(childClosed := true), alive)
      else Settle(Disarm(s.(childClosed := true)), Exited)
    case PromptErrored => if s.abortRequested then s else Settle(s, PromptFailed)
    case WaitReturned =>
      if s.settled.None? then s
      else if s.settled == Some(CleanupPending) then (if s.lease == Released then s else s.(lease := Suspended))
      else s.(lease := Released)
  }

  function Run(o: Options, s: State, events: seq<Event>): State
    decreases |events|
  {
    if events == [] then s else Run(o, Next(o, s, events[0]), events[1..])
  }

  /** The closure of `spawnPiProcess`, handler by handler, with the `wait` wrapper's lease. */
  class Child {
    const o: Options
    var listening: bool
    var abortRequested: bool
    var childClosed: bool
    var windowsTreeTerminationComplete: bool
    var forceTimer: bool
    var cleanupTimer: bool
    var watching: bool
    var settled: Option<Outcome>
    var lease: Lease

    function Current(): State
      reads this
    {
      State(listening, abortRequested, childClosed, windowsTreeTerminationComplete, forceTimer, cleanupTimer,
            watching, settled, lease)
    }

    constructor (o: Options)
      ensures this.o == o && Current() == LAUNCHED
    {
      this.o := o;
      listening, abortRequested, childClosed, windowsTreeTerminationComplete := true, false, false, false;
      forceTimer, cleanupTimer, watching, settled, lease := false, false, false, None, Held;
    }

    method SettleWait(outcome: Outcome)
      modifies this`settled
      ensures Current() == Settle(old(Current()), outcome)
    {
      if settled.Some? {
        return;
      }
      settled := Some(outcome);
    }

    method RejectAbortIfSafe(alive: bool)
      modifies this`settled
      ensures Current() == AbortIfSafe(o, old(Current()), alive)
    {
      if !childClosed {
        return;
      }
      if o.windows {
        if windowsTreeTerminationComplete {
          SettleWait(AbortError);
        }
      } else {
        var processGroupStillAlive := o.pid && alive;
        if !processGroupStillAlive {
          SettleWait(AbortError);
        }
      }
    }

    method OnAbort(alive: bool)
      requires listening
      modifies this
      ensures Current() == Next(o, old(Current()), AbortSignalled(alive))
    {
      if abortRequested {
        return;
      }
      abortRequested := true;
      cleanupTimer := true;
      if !o.windows && o.grace {
        forceTimer := true;
      }
      RejectAbortIfSafe(alive);
    }

    method OnTreeTerminated(alive: bool)
      requires o.windows && abortRequested
      modifies this
      ensures Current() == Next(o, old(Current()), TerminationFulfilled(alive))
    {
      windowsTreeTerminationComplete := true;
      RejectAbortIfSafe(alive);
    }

    method OnForceTimer(alive: bool)
      requires forceTimer
      modifies this
      ensures Current() == Next(o, old(Current()), ForceTimerFired(alive))
    {
      forceTimer := false;
      if !o.pid {
        RejectAbortIfSafe(alive);
        return;
      }
      watching := true;
    }

    method OnGroupExit(alive: bool)
      requires watching
      modifies this
      ensures Current() == Next(o, old(Current()), GroupExitSeen(alive))
    {
      watching := false;
      RejectAbortIfSafe(alive);
    }

    method OnCleanupTimer()
      requires cleanupTimer
      modifies this
      ensures Current() == Next(o, old(Current()), CleanupTimerFired)
    {
      cleanupTimer := false;
      SettleWait(CleanupPending);
    }

    method Cleanup()
      modifies this
      ensures Current() == Disarm(old(Current()))
    {
      forceTimer := false;
      cleanupTimer := false;
      listening := false;
    }

    method OnError(alive: bool)
      modifies this
      ensures Current() == Next(o, old(Current()), ChildErrored(alive))
    {
      if !abortRequested {
        Cleanup();
        SettleWait(LaunchFailed);
        return;
      }
      childClosed := true;
      RejectAbortIfSafe(alive);
    }

    method OnClose(alive: bool)
      modifies this
      ensures Current() == Next(o, old(Current()), ChildClosedEvent(alive))
    {
      childClosed := true;
      if abortRequested {
        RejectAbortIfSafe(alive);
        return;
      }
      Cleanup();
      SettleWait(Exited);
    }

    /** The `finally` of a `wait` wrapper. */
    method OnWaitReturned()
      requires settled.Some?
      modifies this`lease
      ensures Current() == Next(o, old(Current()), WaitReturned)
    {
      if settled == Some(CleanupPending) {
        lease := if lease == Released then Released else Suspended;
      } else {
        lease := Released;
      }
    }
  }

  // ----- every order of events -----

  /** What holds after an abort that was requested before the wait settled. */
  predicate AbortInv(o: Options, s: State) {
    && s.abortRequested
    && (s.settled.None? ==> s.cleanupTimer)
    && (s.settled.Some? ==> s.settled.value == AbortError || s.settled.value == CleanupPending)
    && (s.settled == Some(AbortError) ==> s.childClosed && (o.windows ==> s.treeTerminated))
    && (s.lease == Released ==> s.settled == Some(AbortError))
  }

  /** The state right after the abort, from any unsettled state. */
  lemma AbortStarts(o: Options, s: State, alive: bool)
    requires s.settled.None? && s.listening && !s.abortRequested && !s.childClosed && s.lease == Held
    ensures var s' := Next(o, s, AbortSignalled(alive)); AbortInv(o, s') && s'.settled.None?
  {
  }

  /** The event's probe of the process group found it dead. */
  predicate SawDead(e: Event) {
    match e
    case AbortSignalled(alive) => !alive
    case TerminationFulfilled(alive) => !alive
    case ForceTimerFired(alive) => !alive
    case GroupExitSeen(alive) => !alive
    case ChildErrored(alive) => !alive
    case ChildClosedEvent(alive) => !alive
    case CleanupTimerFired => false
    case PromptErrored => false
    case WaitReturned => false
  }

  predicate TimerFires(events: seq<Event>) {
    exists i :: 0 <= i < |events| && events[i].CleanupTimerFired?
  }

  lemma AbortInvKept(o: Options, s: State, e: Event)
    requires AbortInv(o, s)
    ensures var s' := Next(o, s, e);
      && AbortInv(o, s')
      && (s.settled.Some? ==> s'.settled == s.settled)
      && (s.settled.None? && s'.settled == Some(AbortError) && !o.windows && o.pid ==> SawDead(e))
      && (e.CleanupTimerFired? ==> s'.settled.Some?)
  {
  }

  lemma {:induction false} AbortInvRuns(o: Options, s: State, events: seq<Event>)
    requires AbortInv(o, s)
    ensures var s' := Run(o, s, events);
      && AbortInv(o, s')
      && (s.settled.Some? ==> s'.settled == s.settled)
      && (TimerFires(events) ==> s'.settled.Some?)
    decreases |events|
  {
    if events != [] {
      var e, rest := events[0], events[1..];
      AbortInvKept(o, s, e);
      AbortInvRuns(o, Next(o, s, e), rest);
      if TimerFires(events) && !e.CleanupTimerFired? {
        var i :| 0 <= i < |events| && events[i].CleanupTimerFired?;
        assert rest[i - 1].CleanupTimerFired?;
      }
    }
  }

  /** A wait that was not aborted is as it was launched while it is unsettled. */
  predicate Unsettled(s: State) {
    && s.settled.None? && s.listening && !s.abortRequested && !s.childClosed && s.lease == Held
    && !s.treeTerminated && !s.forceTimer && !s.cleanupTimer && !s.watching
  }

  lemma UnsettledKept(o: Options, s: State, e: Event)
    requires Unsettled(s) && !e.AbortSignalled?
    ensures var s' := Next(o, s, e); s'.settled.Some? || Unsettled(s')
  {
  }

  lemma SettledKept(o: Options, s: State, e: Event)
    requires s.settled.Some?
    ensures Next(o, s, e).settled == s.settled
  {
    assert forall o' :: Settle(s, o') == s;
  }

  /** A promise settles once, whatever happens. */
  lemma {:induction false} SettledStays(o: Options, s: State, events: seq<Event>)
    requires s.settled.Some?
    ensures Run(o, s, events).settled == s.settled
    decreases |events|
  {
    if events != [] {
      SettledKept(o, s, events[0]);
      SettledStays(o, Next(o, s, events[0]), events[1..]);
    }
  }

  lemma {:induction false} UnsettledBefore(o: Options, s: State, events: seq<Event>)
    requires Unsettled(s) && forall i :: 0 <= i < |events| ==> !events[i].AbortSignalled?
    requires Run(o, s, events).settled.None?
    ensures Unsettled(Run(o, s, events))
    decreases |events|
  {
    if events != [] {
      var s' := Next(o, s, events[0]);
      UnsettledKept(o, s, events[0]);
      if s'.settled.Some? {
        SettledStays(o, s', events[1..]);
      } else {
        UnsettledBefore(o, s', events[1..]);
      }
    }
  }

  /** The event at `i` is the one that settles the wait as an abort: unsettled up to there, and
      at that very moment a close or an error of the child had been reported, and the tree's
      termination too or, on POSIX, the probe found the group dead. */
  ghost predicate SettlesAsAbort(o: Options, s: State, events: seq<Event>, i: nat) {
    && i < |events|
    && Run(o, s, events[..i]).settled.None?
    && var now := Run(o, s, events[..i + 1]);
      && now.settled == Some(AbortError) && now.childClosed
      && (o.windows ==> now.treeTerminated)
      && (!o.windows && o.pid ==> SawDead(events[i]))
  }

  lemma {:induction false} AbortSettlesAt(o: Options, s: State, events: seq<Event>) returns (i: nat)
    requires AbortInv(o, s) && s.settled.None? && Run(o, s, events).settled == Some(AbortError)
    ensures SettlesAsAbort(o, s, events, i)
    decreases |events|
  {
    var s' := Next(o, s, events[0]);
    AbortInvKept(o, s, events[0]);
    if s'.settled.Some? {
      SettledStays(o, s', events[1..]);
      i := 0;
      assert events[..1] == [events[0]] && events[..1][1..] == [];
    } else {
      var j := AbortSettlesAt(o, s', events[1..]);
      i := j + 1;
      assert events[..i][1..] == events[1..][..j] && events[..i + 1][1..] == events[1..][..j + 1];
    }
  }

  /** Whatever came before and whatever comes after: a wait that was unsettled when its abort
      was requested settles at most once; as an abort only at a moment when a close or an error of
      the child had been reported, and the tree's termination too or, on POSIX, the group was
      seen dead; else as cleanup pending, at the latest when the cleanup timer fires. The lease is released only
      after such an abort, so never in the cleanup-pending case. */
  lemma AbortIsSafe(o: Options, before: seq<Event>, alive: bool, after: seq<Event>)
    requires forall i :: 0 <= i < |before| ==> !before[i].AbortSignalled?
    requires Run(o, LAUNCHED, before).settled.None?
    ensures var start := Run(o, LAUNCHED, before);
      var aborted := Next(o, start, AbortSignalled(alive));
      var s := Run(o, aborted, after);
      && (s.settled.None? ==> s.cleanupTimer)
      && (s.settled.Some? ==> s.settled.value == AbortError || s.settled.value == CleanupPending)
      && (TimerFires(after) ==> s.settled.Some?)
      && (s.settled == Some(AbortError) ==> exists i :: SettlesAsAbort(o, aborted, after, i))
      && (s.lease == Released ==> s.settled == Some(AbortError))
  {
    UnsettledBefore(o, LAUNCHED, before);
    var start := Run(o, LAUNCHED, before);
    AbortStarts(o, start, alive);
    var aborted := Next(o, start, AbortSignalled(alive));
    AbortInvRuns(o, aborted, after);
    if Run(o, aborted, after).settled == Some(AbortError) {
      var i := AbortSettlesAt(o, aborted, after);
    }
  }

  /** And it does settle as an abort as soon as the workspace is seen to be safe: at the
      child's close, at the tree's termination, or when the group's exit is noticed. */
  lemma SafeMeansSettled(o: Options, s: State, e: Event)
    requires AbortInv(o, s)
    requires e == ChildClosedEvent(false) || e == ChildErrored(false)
             || (e == TerminationFulfilled(false) && o.windows) || (e == GroupExitSeen(false) && s.watching)
    ensures var s' := Next(o, s, e); Safe(o, s', false) ==> s'.settled.Some?
  {
  }

  // ----- what a wait settles as, from what was reported -----

  /** Without an abort the first report of the child or the prompt settles the wait, as what it is;
      nothing else does. After the child's nothing is armed and no abort is listened for. */
  lemma PlainReportSettles(o: Options, before: seq<Event>, e: Event)
    requires forall i :: 0 <= i < |before| ==> !before[i].AbortSignalled?
    requires Run(o, LAUNCHED, before).settled.None? && !e.AbortSignalled?
    ensures Next(o, Run(o, LAUNCHED, before), e).settled ==
            match e
            case ChildClosedEvent(_) => Some(Exited)
            case ChildErrored(_) => Some(LaunchFailed)
            case PromptErrored => Some(PromptFailed)
            case _ => None
    ensures OfChild(e) ==>
              var s := Next(o, Run(o, LAUNCHED, before), e); !s.listening && !s.forceTimer && !s.cleanupTimer
  {
    UnsettledBefore(o, LAUNCHED, before);
  }

  predicate OfChild(e: Event) {
    e.ChildErrored? || e.ChildClosedEvent?
  }

  predicate ChildReported(events: seq<Event>) {
    events != [] && (ChildReported(events[..|events| - 1]) || OfChild(events[|events| - 1]))
  }

  predicate TreeReported(events: seq<Event>) {
    events != [] && (TreeReported(events[..|events| - 1]) || events[|events| - 1].TerminationFulfilled?)
  }

  predicate ForceFired(events: seq<Event>) {
    events != [] && (ForceFired(events[..|events| - 1]) || events[|events| - 1].ForceTimerFired?)
  }

  /** The group is being watched: the force timer, which only a POSIX host with a grace period arms,
      has fired for a child with a pid, and the group's exit has not been noticed since. */
  predicate BeingWatched(o: Options, events: seq<Event>) {
    && events != []
    && var before, e := events[..|events| - 1], events[|events| - 1];
    && !e.GroupExitSeen?
    && (BeingWatched(o, before)
        || (e.ForceTimerFired? && !ForceFired(before) && !o.windows && o.grace && o.pid))
  }

  /** At the last of these events the workspace is seen to be safe: the child's end has been reported,
      and on Windows its tree's too; on POSIX the group is found dead by a report of the child or
      by the watch, or there is no pid to look for, at a report or when the force timer fires. */
  predicate SeenSafe(o: Options, events: seq<Event>) {
    && ChildReported(events)
    && var before, e := events[..|events| - 1], events[|events| - 1];
    if o.windows then TreeReported(events) && (OfChild(e) || e.TerminationFulfilled?)
    else match e
         case ChildErrored(alive) => !o.pid || !alive
         case ChildClosedEvent(alive) => !o.pid || !alive
         case ForceTimerFired(_) => o.grace && !o.pid && !ForceFired(before)
         case GroupExitSeen(alive) => BeingWatched(o, before) && !alive
         case _ => false
  }

  /** What an aborted wait settles as: an abort at the first event at which the workspace is seen to be
      safe, or cleanup pending when the timer fires before that. */
  function AbortOutcome(o: Options, events: seq<Event>): Option<Outcome> {
    if events == [] then None
    else
      var before := AbortOutcome(o, events[..|events| - 1]);
      if before.Some? then before
      else if events[|events| - 1].CleanupTimerFired? then Some(CleanupPending)
      else if SeenSafe(o, events) then Some(AbortError)
      else None
  }

  /** The state of an aborted wait is what was reported since. */
  predicate Tracks(o: Options, s: State, events: seq<Event>) {
    && s.abortRequested && s.settled == AbortOutcome(o, events)
    && (s.settled.None? ==> s.cleanupTimer)
    && (s.childClosed <==> ChildReported(events))
    && (s.treeTerminated <==> o.windows && TreeReported(events))
    && (s.forceTimer <==> !o.windows && o.grace && !ForceFired(events))
    && (s.watching <==> BeingWatched(o, events))
    && (s.watching ==> o.pid && !o.windows)
  }

  lemma TracksOneMore(o: Options, s: State, events: seq<Event>, e: Event)
    requires Tracks(o, s, events)
    ensures Tracks(o, Next(o, s, e), events + [e])
  {
    assert (events + [e])[..|events|] == events;
  }

  lemma {:induction false} RunMore(o: Options, s: State, events: seq<Event>, e: Event)
    ensures Run(o, s, events + [e]) == Next(o, Run(o, s, events), e)
    decreases |events|
  {
    if events == [] {
      assert events + [e] == [e];
    } else {
      RunMore(o, Next(o, s, events[0]), events[1..], e);
      assert (events + [e])[1..] == events[1..] + [e];
    }
  }

  lemma {:induction false} TracksAll(o: Options, s: State, events: seq<Event>)
    requires Tracks(o, s, [])
    ensures Tracks(o, Run(o, s, events), events)
    decreases |events|
  {
    if events != [] {
      var before, e := events[..|events| - 1], events[|events| - 1];
      assert events == before + [e];
      TracksAll(o, s, before);
      RunMore(o, s, before, e);
      TracksOneMore(o, Run(o, s, before), before, e);
    }
  }

  /** Whatever came before, an aborted wait settles exactly as what is reported after the abort says. */
  lemma AbortSettlesExactly(o: Options, before: seq<Event>, alive: bool, after: seq<Event>)
    requires forall i :: 0 <= i < |before| ==> !before[i].AbortSignalled?
    requires Run(o, LAUNCHED, before).settled.None?
    ensures Run(o, Next(o, Run(o, LAUNCHED, before), AbortSignalled(alive)), after).settled == AbortOutcome(o, after)
  {
    UnsettledBefore(o, LAUNCHED, before);
    TracksAll(o, Next(o, Run(o, LAUNCHED, before), AbortSignalled(alive)), after);
  }

  // ----- the lease -----

  /** The lease is held until the wait has settled and returned; then it follows the outcome. */
  predicate LeaseFits(s: State) {
    match s.lease
    case Held => true
    case Suspended => s.settled == Some(CleanupPending)
    case Released => s.settled.Some? && s.settled != Some(CleanupPending)
  }

  lemma LeaseFitsNext(o: Options, s: State, e: Event)
    requires LeaseFits(s)
    ensures LeaseFits(Next(o, s, e)) && (s.lease != Held ==> Next(o, s, e).lease == s.lease)
  {
    if s.settled.Some? { SettledKept(o, s, e); }
  }

  lemma {:induction false} LeaseFitsAlways(o: Options, s: State, events: seq<Event>)
    requires LeaseFits(s)
    ensures LeaseFits(Run(o, s, events))
    ensures s.lease != Held ==> Run(o, s, events).lease == s.lease
    decreases |events|
  {
    if events != [] {
      LeaseFitsNext(o, s, events[0]);
      LeaseFitsAlways(o, Next(o, s, events[0]), events[1..]);
    }
  }

  lemma {:induction false} RunInTwo(o: Options, s: State, a: seq<Event>, b: seq<Event>)
    ensures Run(o, s, a + b) == Run(o, Run(o, s, a), b)
    decreases |a|
  {
    if a == [] {
      assert a + b == b;
    } else {
      RunInTwo(o, Next(o, s, a[0]), a[1..], b);
      assert (a + b)[1..] == a[1..] + b;
    }
  }

  /** For every order of events: the lease is held while the wait is unsettled; and when a settled wait
      has returned, it is suspended for cleanup pending and released for every other outcome, and
      stays so whatever follows. */
  lemma LeaseAfterWait(o: Options, events: seq<Event>, more: seq<Event>)
    ensures var s, later := Run(o, LAUNCHED, events), Run(o, LAUNCHED, events + ([WaitReturned] + more));
      && (s.settled.None? ==> s.lease == Held)
      && (s.settled.Some? ==>
            && later.settled == s.settled
            && (later.lease == Released <==> s.settled != Some(CleanupPending))
            && (later.lease == Suspended <==> s.settled == Some(CleanupPending)))
  {
    LeaseFitsAlways(o, LAUNCHED, events);
    var s := Run(o, LAUNCHED, events);
    RunInTwo(o, LAUNCHED, events, [WaitReturned] + more);
    assert ([WaitReturned] + more)[1..] == more;
    var returned := Next(o, s, WaitReturned);
    if s.settled.Some? {
      SettledKept(o, s, WaitReturned);
      LeaseFitsAlways(o, returned, more);
      SettledStays(o, returned, more);
    }
  }
}
