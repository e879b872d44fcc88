/** What becomes of each call of a step: it is used and answered in the log, left to the caller, or
    left to be confirmed. */
module StepFates {
  import opened Wrappers
  import opened StepLog

  predicate Answered(step: StepResult, id: string) {
    exists r :: r in step.results && r.id == id
  }

  /** Its tool needs confirmation, or the judge asked about the call. */
  predicate NeedsConfirmation(t: Tools, c: Call) {
    c.name in t.confirm || c.id in t.asks
  }

  lemma AnsweredIsHasResult(step: StepResult, id: string)
    ensures Answered(step, id) <==> HasResult(step, id)
  {
    if k :| 0 <= k < |step.results| && step.results[k].id == id { assert step.results[k] in step.results; }
  }

  lemma SelectedCall(calls: seq<Call>, keep: Call -> bool, c: Call)
    requires Distinct(CallIds(calls)) && c in calls
    ensures c.id in Select(calls, keep) <==> keep(c)
  {
    Selected(calls, keep);
    var i :| 0 <= i < |calls| && calls[i] == c;
    if Kept(calls, keep, c.id) {
      var k :| 0 <= k < |calls| && calls[k].id == c.id && keep(calls[k]);
      assert CallIds(calls)[i] == CallIds(calls)[k];
    }
  }

  /** Each call of a step has one fate: its use is logged; or it is left to the caller, because its
      tool is the caller's and nothing answers it; or it is left to be confirmed, because it needs
      that and nothing answers it; or it is a call of the caller's tool that is answered already. */
  lemma OneFate(t: Tools, step: StepResult, c: Call)
    requires Distinct(CallIds(step.calls)) && c in step.calls
    ensures c.id in CallerIds(t, step) <==> c.name in t.custom && !Answered(step, c.id)
    ensures c.id in ConfirmationIds(t, step) <==>
            c.name !in t.custom && NeedsConfirmation(t, c) && !Answered(step, c.id)
    ensures c.id in UseIds(t, step) <==> c.name !in t.custom && (NeedsConfirmation(t, c) ==> Answered(step, c.id))
    ensures c.id in AnswerIds(t, step) <==>
            Answered(step, c.id) || (c.name !in t.custom && !NeedsConfirmation(t, c))
  {
    AnsweredIsHasResult(step, c.id);
    SelectedCall(step.calls, x => ParkedForCaller(t, step, x), c);
    SelectedCall(step.calls, x => ParkedForConfirmation(t, step, x), c);
    SelectedCall(step.calls, x => Logged(t, step, x), c);
    SelectedCall(step.calls, x => Unanswered(t, step, x), c);
    assert c.id in ResultIds(step.results) <==> HasResult(step, c.id);
    assert AnswerIds(t, step) == ResultIds(step.results) + Select(step.calls, x => Unanswered(t, step, x));
  }

  lemma SelectedIsCall(calls: seq<Call>, keep: Call -> bool, id: string) returns (c: Call)
    requires Distinct(CallIds(calls)) && id in Select(calls, keep)
    ensures c in calls && c.id == id && keep(c)
  {
    Selected(calls, keep);
    var k :| 0 <= k < |calls| && calls[k].id == id && keep(calls[k]);
    c := calls[k];
  }

  /** Nothing else is listed, and each of them once. */
  lemma OnlyCallsAreListed(t: Tools, step: StepResult, id: string)
    requires Distinct(CallIds(step.calls))
    requires id in CallerIds(t, step) || id in ConfirmationIds(t, step) || id in UseIds(t, step)
    ensures exists c :: c in step.calls && c.id == id
    ensures Distinct(CallerIds(t, step)) && Distinct(ConfirmationIds(t, step)) && Distinct(UseIds(t, step))
  {
    Selected(step.calls, c => ParkedForCaller(t, step, c));
    Selected(step.calls, c => ParkedForConfirmation(t, step, c));
    Selected(step.calls, c => Logged(t, step, c));
    if id in CallerIds(t, step) {
      var c := SelectedIsCall(step.calls, c => ParkedForCaller(t, step, c), id);
    } else if id in ConfirmationIds(t, step) {
      var c := SelectedIsCall(step.calls, c => ParkedForConfirmation(t, step, c), id);
    } else {
      var c := SelectedIsCall(step.calls, c => Logged(t, step, c), id);
    }
  }

  lemma {:induction false} SelectKeepsOrder(calls: seq<Call>, keep: Call -> bool, a: nat, b: nat, i: nat, j: nat)
    requires Distinct(CallIds(calls)) && a < |calls| && b < |calls|
    requires i < j < |Select(calls, keep)|
    requires Select(calls, keep)[i] == calls[a].id && Select(calls, keep)[j] == calls[b].id
    ensures a < b
    decreases |calls|
  {
    var n := |calls| - 1;
    var before := calls[..n];
    Selected(calls, keep);
    assert forall k :: 0 <= k < n ==> CallIds(before)[k] == CallIds(calls)[k];
    Selected(before, keep);
    var chosen := Select(before, keep);
    assert chosen[i] in chosen && Kept(before, keep, chosen[i]);
    var k :| 0 <= k < n && before[k].id == chosen[i];
    assert CallIds(calls)[k] == CallIds(calls)[a];
    if j < |chosen| {
      assert chosen[j] in chosen && Kept(before, keep, chosen[j]);
      var l :| 0 <= l < n && before[l].id == chosen[j];
      assert CallIds(calls)[l] == CallIds(calls)[b];
      SelectKeepsOrder(before, keep, a, b, i, j);
    } else {
      assert CallIds(calls)[n] == CallIds(calls)[b];
    }
  }

  /** Uses are logged, and calls left pending, in the order of the calls. */
  lemma InCallOrder(t: Tools, step: StepResult, ids: seq<string>, a: nat, b: nat, i: nat, j: nat)
    requires Distinct(CallIds(step.calls)) && a < |step.calls| && b < |step.calls|
    requires ids == UseIds(t, step) || ids == CallerIds(t, step) || ids == ConfirmationIds(t, step)
    requires i < j < |ids| && ids[i] == step.calls[a].id && ids[j] == step.calls[b].id
    ensures a < b
  {
    if ids == UseIds(t, step) {
      SelectKeepsOrder(step.calls, c => Logged(t, step, c), a, b, i, j);
    } else if ids == CallerIds(t, step) {
      SelectKeepsOrder(step.calls, c => ParkedForCaller(t, step, c), a, b, i, j);
    } else {
      SelectKeepsOrder(step.calls, c => ParkedForConfirmation(t, step, c), a, b, i, j);
    }
  }

  ghost predicate AllDistinct(done: seq<(Tools, StepResult)>) {
    forall n :: 0 <= n < |done| ==> Distinct(CallIds(done[n].1.calls))
  }

  /** The step at `n` leaves the call to the caller. */
  predicate LeavesToCaller(done: seq<(Tools, StepResult)>, id: string, n: nat) {
    n < |done| && id in CallerIds(done[n].0, done[n].1)
  }

  predicate LeavesToConfirm(done: seq<(Tools, StepResult)>, id: string, n: nat) {
    n < |done| && id in ConfirmationIds(done[n].0, done[n].1)
  }

  lemma LeavesInOneMore(done: seq<(Tools, StepResult)>, id: string)
    requires done != []
    ensures var last := |done| - 1;
      && ((exists n :: LeavesToCaller(done, id, n)) <==>
          LeavesToCaller(done, id, last) || exists n :: LeavesToCaller(done[..last], id, n))
      && ((exists n :: LeavesToConfirm(done, id, n)) <==>
          LeavesToConfirm(done, id, last) || exists n :: LeavesToConfirm(done[..last], id, n))
  {
    var last := |done| - 1;
    assert forall n: nat :: n < last ==> done[..last][n] == done[n];
    forall n: nat
      ensures LeavesToCaller(done, id, n) <==>
              (n == last && LeavesToCaller(done, id, last)) || LeavesToCaller(done[..last], id, n)
      ensures LeavesToConfirm(done, id, n) <==>
              (n == last && LeavesToConfirm(done, id, last)) || LeavesToConfirm(done[..last], id, n)
    {
    }
  }

  /** Over a whole run a call is pending exactly when some finished step left it so. */
  lemma {:induction false} PendingIsLeftBySome(done: seq<(Tools, StepResult)>, id: string)
    ensures id in AllCallerIds(done) <==> exists n :: LeavesToCaller(done, id, n)
    ensures id in AllConfirmationIds(done) <==> exists n :: LeavesToConfirm(done, id, n)
    decreases |done|
  {
    if done != [] {
      var last := |done| - 1;
      PendingIsLeftBySome(done[..last], id);
      LeavesInOneMore(done, id);
      assert id in CallerIds(done[last].0, done[last].1) <==> LeavesToCaller(done, id, last);
      assert id in ConfirmationIds(done[last].0, done[last].1) <==> LeavesToConfirm(done, id, last);
    }
  }

  /** So no call of a finished step is lost: each unanswered one of the caller's tools is pending for the
      caller, each unanswered one that needs confirmation is pending for that. */
  lemma NoCallIsLost(done: seq<(Tools, StepResult)>, n: nat, c: Call)
    requires AllDistinct(done) && n < |done| && c in done[n].1.calls
    ensures var (t, step) := done[n];
      && (c.name in t.custom && !Answered(step, c.id) ==> c.id in AllCallerIds(done))
      && (c.name !in t.custom && NeedsConfirmation(t, c) && !Answered(step, c.id) ==>
            c.id in AllConfirmationIds(done))
      && (c.name !in t.custom && (Answered(step, c.id) || !NeedsConfirmation(t, c)) ==>
            c.id in UseIds(t, step) && c.id in AnswerIds(t, step))
  {
    var (t, step) := done[n];
    OneFate(t, step, c);
    PendingIsLeftBySome(done, c.id);
    assert c.id in CallerIds(t, step) ==> LeavesToCaller(done, c.id, n);
    assert c.id in ConfirmationIds(t, step) ==> LeavesToConfirm(done, c.id, n);
  }

  /** Before its tool events a step notes its reasoning and then its text, if it has them. */
  lemma NotesComeFirst(t: Tools, step: StepResult)
    ensures var events, thought := StepEvents(t, step), if step.reasoning then 1 else 0;
      var notes := thought + if step.text then 1 else 0;
      && |events| >= notes && events[notes..] == ToolEvents(t, step)
      && (step.reasoning ==> events[0] == AgentThinking) && (step.text ==> events[thought] == AgentMessage)
      && forall k :: notes <= k < |events| ==> IsTool(events[k])
  {
  }

  // ----- how many requests a log shows -----

  function Starts(log: seq<Event>): nat {
    if log == [] then 0 else Starts(log[..|log| - 1]) + if log[|log| - 1].SpanStart? then 1 else 0
  }

  /** The ends that are no errors. */
  function GoodEnds(log: seq<Event>): nat {
    if log == [] then 0
    else
      var e := log[|log| - 1];
      GoodEnds(log[..|log| - 1]) + if e.SpanEnd? && !e.isError then 1 else 0
  }

  lemma {:induction false} CountsAdd(log: seq<Event>, more: seq<Event>)
    ensures Starts(log + more) == Starts(log) + Starts(more)
    ensures GoodEnds(log + more) == GoodEnds(log) + GoodEnds(more)
    decreases |more|
  {
    if more == [] {
      assert log + more == log;
    } else {
      var n := |more| - 1;
      CountsAdd(log, more[..n]);
      assert (log + more)[..|log + more| - 1] == log + more[..n] && (log + more)[|log + more| - 1] == more[n];
    }
  }

  lemma {:induction false} NoSpansNoCounts(log: seq<Event>)
    requires forall e :: e in log ==> !e.SpanStart? && !e.SpanEnd?
    ensures Starts(log) == 0 && GoodEnds(log) == 0
    decreases |log|
  {
    if log != [] {
      assert log[|log| - 1] in log;
      NoSpansNoCounts(log[..|log| - 1]);
    }
  }

  lemma OneCounts(e: Event)
    ensures Starts([e]) == (if e.SpanStart? then 1 else 0)
    ensures GoodEnds([e]) == if e.SpanEnd? && !e.isError then 1 else 0
  {
    assert [e][..0] == [];
  }

  /** Whether a callback starts a request, and whether it finishes a step, when no closing append fails. */
  predicate StartsOne(c: Callback) {
    c.OnPrepareStep? && !c.startFails
  }

  predicate FinishesOne(c: Callback) {
    c.OnStepDone? && !c.endFails
  }

  lemma CallbackCounts(confirm: set<string>, custom: set<string>, x: Spans, c: Callback)
    requires Faultless(c)
    ensures var y := After(confirm, custom, x, c);
      && Starts(y.log) == Starts(x.log) + (if StartsOne(c) then 1 else 0)
      && GoodEnds(y.log) == GoodEnds(x.log) + (if FinishesOne(c) then 1 else 0)
  {
    match c
    case OnPrepareStep(closeFails, startFails) =>
      CloseCounts(x);
      CountsAdd(Close(x, true, false).log, [SpanStart]);
      OneCounts(SpanStart);
    case OnStreamError(closeFails) => CloseCounts(x);
    case OnStepDone(step, asks, endFails) =>
      var t := Tools(confirm, custom, asks);
      NoSpansInside(t, step);
      NoSpansNoCounts(StepEvents(t, step));
      OneCounts(SpanEnd(x.inFlight, false));
      CountsAdd(x.log, [SpanEnd(x.inFlight, false)]);
      CountsAdd(x.log + [SpanEnd(x.inFlight, false)], StepEvents(t, step));
  }

  lemma CloseCounts(x: Spans)
    ensures Starts(Close(x, true, false).log) == Starts(x.log) && GoodEnds(Close(x, true, false).log) == GoodEnds(x.log)
  {
    OneCounts(SpanEnd(x.inFlight, true));
    CountsAdd(x.log, [SpanEnd(x.inFlight, true)]);
  }

  /** When the stream fails nothing stays in flight: the request's end, an error, is the next event, unless
      its append fails too. */
  lemma StreamErrorCloses(confirm: set<string>, custom: set<string>, x: Spans, closeFails: bool)
    ensures var y := After(confirm, custom, x, OnStreamError(closeFails));
      && y.inFlight == None
      && y.log == if x.inFlight.None? || closeFails then x.log else x.log + [SpanEnd(x.inFlight, true)]
  {
  }

  function HowMany(callbacks: seq<Callback>, what: Callback -> bool): nat {
    if callbacks == [] then 0
    else HowMany(callbacks[..|callbacks| - 1], what) + if what(callbacks[|callbacks| - 1]) then 1 else 0
  }

  /** Where no closing append fails, the log shows one start for each request that was prepared, and one
      end that is no error for each step that finished. */
  lemma {:induction false} RequestsAreShown(confirm: set<string>, custom: set<string>, callbacks: seq<Callback>)
    requires forall k :: 0 <= k < |callbacks| ==> Faultless(callbacks[k])
    ensures var log := AfterAll(confirm, custom, Spans([], None), callbacks).log;
      && Starts(log) == HowMany(callbacks, StartsOne)
      && GoodEnds(log) == HowMany(callbacks, FinishesOne)
    decreases |callbacks|
  {
    if callbacks != [] {
      var n := |callbacks| - 1;
      RequestsAreShown(confirm, custom, callbacks[..n]);
      CallbackCounts(confirm, custom, AfterAll(confirm, custom, Spans([], None), callbacks[..n]), callbacks[n]);
    }
  }
}
