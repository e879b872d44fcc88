/** What the default strategy's callbacks append to the session's event log: one span per
    model request, and tool uses paired with results. An event's id is its position. */
module StepLog {
  import opened Wrappers
  import opened Basics

  datatype Event =
    | SpanStart
    | SpanEnd(parent: Option<nat>, isError: bool)
    | AgentThinking
    | AgentMessage
    | ToolUse(id: string)
    | ToolResult(id: string, isError: bool)

  // ----- spans -----

  predicate Ends(log: seq<Event>, e: nat, start: nat) {
    e < |log| && log[e].SpanEnd? && log[e].parent == Some(start)
  }

  /** `e` closes `start` before any other request starts. */
  predicate ClosedBy(log: seq<Event>, start: nat, e: nat) {
    start < e && Ends(log, e, start) && forall k :: start < k < e ==> !log[k].SpanStart?
  }

  ghost predicate Closed(log: seq<Event>, start: nat) {
    exists e: nat :: ClosedBy(log, start, e)
  }

  /** Every end belongs to an earlier start, no start has two, and every start is closed
      before the next one, except the one in flight and those whose closing append failed. */
  ghost predicate Bracketed(log: seq<Event>, inFlight: Option<nat>, lost: set<nat>) {
    && (forall e: nat, p: nat :: Ends(log, e, p) ==> p < e && log[p].SpanStart?)
    && (forall d: nat, e: nat, p: nat :: Ends(log, d, p) && Ends(log, e, p) ==> d == e)
    && (forall e: nat, p: nat :: Ends(log, e, p) ==> p !in lost && inFlight != Some(p))
    && (inFlight.Some? ==>
          && inFlight.value < |log| && log[inFlight.value].SpanStart? && inFlight.value !in lost
          && forall k :: inFlight.value < k < |log| ==> !log[k].SpanStart?)
    && (forall s: nat :: s < |log| && log[s].SpanStart? && s !in lost && inFlight != Some(s) ==> Closed(log, s))
  }

  lemma AppendStart(log: seq<Event>, lost: set<nat>)
    requires Bracketed(log, None, lost) && forall p :: p in lost ==> p < |log|
    ensures Bracketed(log + [SpanStart], Some(|log|), lost)
  {
    AppendKeepsClosed(log, [SpanStart]);
    assert forall e: nat, p: nat :: Ends(log + [SpanStart], e, p) ==> Ends(log, e, p);
  }

  lemma AppendKeepsClosed(log: seq<Event>, more: seq<Event>)
    ensures forall s: nat :: Closed(log, s) ==> Closed(log + more, s)
  {
    forall s: nat | Closed(log, s) ensures Closed(log + more, s) {
      var e: nat :| ClosedBy(log, s, e);
      assert ClosedBy(log + more, s, e);
    }
  }

  lemma AppendEnd(log: seq<Event>, start: nat, isError: bool, lost: set<nat>)
    requires Bracketed(log, Some(start), lost)
    ensures Bracketed(log + [SpanEnd(Some(start), isError)], None, lost)
  {
    var log' := log + [SpanEnd(Some(start), isError)];
    AppendKeepsClosed(log, [SpanEnd(Some(start), isError)]);
    assert ClosedBy(log', start, |log|);
    assert forall e: nat, p: nat :: Ends(log', e, p) ==> Ends(log, e, p) || (e == |log| && p == start);
  }

  lemma AppendOther(log: seq<Event>, more: seq<Event>, inFlight: Option<nat>, lost: set<nat>)
    requires Bracketed(log, inFlight, lost)
    requires forall e :: e in more ==> !e.SpanStart? && (e.SpanEnd? ==> e.parent.None?)
    ensures Bracketed(log + more, inFlight, lost)
  {
    AppendKeepsClosed(log, more);
    assert forall e: nat, p: nat :: Ends(log + more, e, p) ==> Ends(log, e, p);
  }

  // ----- tool calls -----

  datatype Call = Call(id: string, name: string)

  datatype Result = Result(id: string, isError: bool)

  datatype StepResult = StepResult(reasoning: bool, text: bool, calls: seq<Call>, results: seq<Result>)

  /** Which tools need confirmation or belong to the caller, and which calls the judge parked. */
  datatype Tools = Tools(confirm: set<string>, custom: set<string>, asks: set<string>)

  predicate HasResult(step: StepResult, id: string) {
    exists k :: 0 <= k < |step.results| && step.results[k].id == id
  }

  predicate AwaitsConfirmation(t: Tools, step: StepResult, c: Call) {
    (c.name in t.confirm || c.id in t.asks) && !HasResult(step, c.id)
  }

  /** The calls whose use the first loop logs. */
  predicate Logged(t: Tools, step: StepResult, c: Call) {
    c.name !in t.custom && !AwaitsConfirmation(t, step, c)
  }

  predicate ParkedForCaller(t: Tools, step: StepResult, c: Call) {
    c.name in t.custom && !HasResult(step, c.id)
  }

  predicate ParkedForConfirmation(t: Tools, step: StepResult, c: Call) {
    c.name !in t.custom && AwaitsConfirmation(t, step, c)
  }

  /** The calls whose missing result the third loop makes up for. */
  predicate Unanswered(t: Tools, step: StepResult, c: Call) {
    !HasResult(step, c.id) && c.name !in t.custom && c.name !in t.confirm && c.id !in t.asks
  }

  function Select(calls: seq<Call>, keep: Call -> bool): seq<string> {
    if calls == [] then []
    else
      var c := calls[|calls| - 1];
      Select(calls[..|calls| - 1], keep) + (if keep(c) then [c.id] else [])
  }

  function UsesOf(ids: seq<string>): (out: seq<Event>)
    ensures |out| == |ids| && forall k :: 0 <= k < |ids| ==> out[k] == ToolUse(ids[k])
  {
    seq(|ids|, k requires 0 <= k < |ids| => ToolUse(ids[k]))
  }

  function ErrorsOf(ids: seq<string>): (out: seq<Event>)
    ensures |out| == |ids| && forall k :: 0 <= k < |ids| ==> out[k] == ToolResult(ids[k], true)
  {
    seq(|ids|, k requires 0 <= k < |ids| => ToolResult(ids[k], true))
  }

  function ResultsOf(results: seq<Result>): (out: seq<Event>)
    ensures |out| == |results|
    ensures forall k :: 0 <= k < |results| ==> out[k] == ToolResult(results[k].id, results[k].isError)
  {
    seq(|results|, k requires 0 <= k < |results| => ToolResult(results[k].id, results[k].isError))
  }

  function Notes(step: StepResult): seq<Event> {
    (if step.reasoning then [AgentThinking] else []) + (if step.text then [AgentMessage] else [])
  }

  function ToolEvents(t: Tools, step: StepResult): seq<Event> {
    UsesOf(Select(step.calls, c => Logged(t, step, c)))
    + ResultsOf(step.results)
    + ErrorsOf(Select(step.calls, c => Unanswered(t, step, c)))
  }

  /** Everything a step logs after its span's end. */
  function StepEvents(t: Tools, step: StepResult): seq<Event> {
    Notes(step) + ToolEvents(t, step)
  }

  predicate Distinct(ids: seq<string>) {
    forall i, j :: 0 <= i < j < |ids| ==> ids[i] != ids[j]
  }

  function CallIds(calls: seq<Call>): (ids: seq<string>)
    ensures |ids| == |calls| && forall k :: 0 <= k < |calls| ==> ids[k] == calls[k].id
  {
    seq(|calls|, k requires 0 <= k < |calls| => calls[k].id)
  }

  function ResultIds(results: seq<Result>): (ids: seq<string>)
    ensures |ids| == |results| && forall k :: 0 <= k < |results| ==> ids[k] == results[k].id
  {
    seq(|results|, k requires 0 <= k < |results| => results[k].id)
  }

  predicate Kept(calls: seq<Call>, keep: Call -> bool, id: string) {
    exists k :: 0 <= k < |calls| && calls[k].id == id && keep(calls[k])
  }

  /** What the SDK promises of a step: distinct call ids, and results, one per call, only for
      the step's own non-custom calls. */
  predicate Proper(t: Tools, step: StepResult) {
    && Distinct(CallIds(step.calls))
    && Distinct(ResultIds(step.results))
    && forall k :: 0 <= k < |step.results| ==>
         Kept(step.calls, (c: Call) => c.name !in t.custom, step.results[k].id)
  }

  lemma {:induction false} Selected(calls: seq<Call>, keep: Call -> bool)
    requires Distinct(CallIds(calls))
    ensures forall id :: id in Select(calls, keep) <==> Kept(calls, keep, id)
    ensures Distinct(Select(calls, keep))
    decreases |calls|
  {
    if calls != [] {
      var n := |calls| - 1;
      var before, c := calls[..n], calls[n];
      assert forall k :: 0 <= k < n ==> CallIds(before)[k] == CallIds(calls)[k];
      Selected(before, keep);
      assert !Kept(before, keep, c.id) by {
        assert CallIds(calls)[n] == c.id;
      }
      forall id ensures id in Select(calls, keep) <==> Kept(calls, keep, id) {
        if Kept(before, keep, id) {
          var k :| 0 <= k < n && before[k].id == id && keep(before[k]);
          assert calls[k].id == id && keep(calls[k]);
        }
      }
    }
  }

  /** The ids of the results a step logs, in order. */
  function AnswerIds(t: Tools, step: StepResult): seq<string> {
    ResultIds(step.results) + Select(step.calls, c => Unanswered(t, step, c))
  }

  function UseIds(t: Tools, step: StepResult): seq<string> {
    Select(step.calls, c => Logged(t, step, c))
  }

  /** The calls a step leaves to the caller, in order. */
  function CallerIds(t: Tools, step: StepResult): seq<string> {
    Select(step.calls, c => ParkedForCaller(t, step, c))
  }

  /** And those it leaves to be confirmed. */
  function ConfirmationIds(t: Tools, step: StepResult): seq<string> {
    Select(step.calls, c => ParkedForConfirmation(t, step, c))
  }

  lemma UsedIffAnswered(t: Tools, step: StepResult, id: string)
    requires Proper(t, step)
    ensures Kept(step.calls, c => Logged(t, step, c), id)
       <==> HasResult(step, id) || Kept(step.calls, c => Unanswered(t, step, c), id)
    ensures !(HasResult(step, id) && Kept(step.calls, c => Unanswered(t, step, c), id))
  {
  }

  /** Exactly the calls with a logged use are answered in the same step, and once each. */
  lemma AnswersMatchUses(t: Tools, step: StepResult)
    requires Proper(t, step)
    ensures forall id :: id in UseIds(t, step) <==> id in AnswerIds(t, step)
    ensures Distinct(UseIds(t, step)) && Distinct(AnswerIds(t, step))
  {
    Selected(step.calls, c => Logged(t, step, c));
    Selected(step.calls, c => Unanswered(t, step, c));
    var results, errors := ResultIds(step.results), Select(step.calls, c => Unanswered(t, step, c));
    forall id ensures id in UseIds(t, step) <==> id in AnswerIds(t, step) {
      UsedIffAnswered(t, step, id);
      assert id in results <==> HasResult(step, id);
      assert id in results + errors <==> id in results || id in errors;
    }
    forall i, j | 0 <= i < |results| && 0 <= j < |errors| ensures results[i] != errors[j] {
      UsedIffAnswered(t, step, errors[j]);
      assert errors[j] in errors;
    }
  }

  predicate Answers(events: seq<Event>, r: nat, id: string) {
    r < |events| && events[r].ToolResult? && events[r].id == id
  }

  lemma ToolEventsByPosition(t: Tools, step: StepResult)
    ensures var events, uses, answers := ToolEvents(t, step), UseIds(t, step), AnswerIds(t, step);
      && |events| == |uses| + |answers|
      && (forall k :: 0 <= k < |uses| ==> events[k] == ToolUse(uses[k]))
      && (forall j: nat :: j < |answers| ==> Answers(events, |uses| + j, answers[j]))
  {
  }

  /** Event `k`, if a tool use, is followed by exactly one result with its id, the only one among
      these events; if a result, it answers a use before it. */
  ghost predicate Paired(events: seq<Event>, k: nat)
    requires k < |events|
  {
    && (events[k].ToolUse? ==>
          exists r: nat :: k < r && Answers(events, r, events[k].id)
                           && forall q: nat :: Answers(events, q, events[k].id) ==> q == r)
    && (events[k].ToolResult? ==> exists u: nat :: u < k && events[u] == ToolUse(events[k].id))
  }

  lemma UseIsPaired(t: Tools, step: StepResult, k: nat, j: nat)
    requires var uses, answers := UseIds(t, step), AnswerIds(t, step);
      && k < |uses| && j < |answers| && answers[j] == uses[k] && Distinct(answers)
    ensures k < |ToolEvents(t, step)| && Paired(ToolEvents(t, step), k)
  {
    var events, uses, answers := ToolEvents(t, step), UseIds(t, step), AnswerIds(t, step);
    ToolEventsByPosition(t, step);
    assert Answers(events, |uses| + j, answers[j]);
    forall q: nat | Answers(events, q, events[k].id) ensures q == |uses| + j {
      assert Answers(events, |uses| + (q - |uses|), answers[q - |uses|]);
    }
  }

  lemma ResultIsPaired(t: Tools, step: StepResult, k: nat, j: nat)
    requires var uses, answers := UseIds(t, step), AnswerIds(t, step);
      k < |answers| && j < |uses| && uses[j] == answers[k]
    ensures |UseIds(t, step)| + k < |ToolEvents(t, step)| && Paired(ToolEvents(t, step), |UseIds(t, step)| + k)
  {
    var events, uses, answers := ToolEvents(t, step), UseIds(t, step), AnswerIds(t, step);
    ToolEventsByPosition(t, step);
    assert Answers(events, |uses| + k, answers[k]);
    assert events[j] == ToolUse(answers[k]);
  }

  /** Every tool use that a step logs is followed, in that step, by exactly one result with
      its id; and every result that a step logs answers a use logged before it in that step. */
  lemma UsesArePaired(t: Tools, step: StepResult, k: nat)
    requires Proper(t, step) && k < |ToolEvents(t, step)|
    ensures Paired(ToolEvents(t, step), k)
  {
    var uses, answers := UseIds(t, step), AnswerIds(t, step);
    AnswersMatchUses(t, step);
    ToolEventsByPosition(t, step);
    if k < |uses| {
      assert uses[k] in answers;
      var j :| 0 <= j < |answers| && answers[j] == uses[k];
      UseIsPaired(t, step, k, j);
    } else {
      assert answers[k - |uses|] in uses;
      var j :| 0 <= j < |uses| && uses[j] == answers[k - |uses|];
      ResultIsPaired(t, step, k - |uses|, j);
    }
  }

  lemma StepJoins<T>(log: seq<T>, notes: seq<T>, a: seq<T>, b: seq<T>, c: seq<T>)
    ensures log + notes + a + b + c == log + (notes + (a + b + c))
  {
  }

  lemma NoSpansInside(t: Tools, step: StepResult)
    ensures forall e :: e in StepEvents(t, step) ==> !e.SpanStart? && !e.SpanEnd?
  {
  }

  /** A parked call is not in the log yet: neither a use nor a result of it. */
  lemma ParkedCallsAreAbsent(t: Tools, step: StepResult, c: Call)
    requires Proper(t, step) && c in step.calls && !Logged(t, step, c)
    ensures c.id !in UseIds(t, step) && c.id !in AnswerIds(t, step)
  {
    AnswersMatchUses(t, step);
    Selected(step.calls, c => Logged(t, step, c));
    var i :| 0 <= i < |step.calls| && step.calls[i] == c;
    forall k | 0 <= k < |step.calls| && step.calls[k].id == c.id ensures k == i {
      assert CallIds(step.calls)[i] == CallIds(step.calls)[k];
    }
  }

  // ----- steps within the whole log -----

  predicate IsTool(e: Event) {
    e.ToolUse? || e.ToolResult?
  }

  /** Where in the log a finished step wrote its tool events, and which. */
  datatype Stretch = Stretch(at: nat, events: seq<Event>, tools: Tools, step: StepResult)

  function EndOf(x: Stretch): nat {
    x.at + |x.events|
  }

  predicate Wrote(log: seq<Event>, x: Stretch) {
    EndOf(x) <= |log| && log[x.at..EndOf(x)] == x.events
  }

  predicate Genuine(x: Stretch) {
    x.events == ToolEvents(x.tools, x.step)
  }

  predicate Within(x: Stretch, k: int) {
    x.at <= k < EndOf(x)
  }

  predicate InSome(steps: seq<Stretch>, k: int) {
    exists n :: 0 <= n < |steps| && Within(steps[n], k)
  }

  /** The steps wrote one after another, and every tool event of the log is in one of them. */
  ghost predicate Divided(log: seq<Event>, steps: seq<Stretch>) {
    && (forall n :: 0 <= n < |steps| ==> Wrote(log, steps[n]))
    && (forall m, n :: 0 <= m < n < |steps| ==> EndOf(steps[m]) <= steps[n].at)
    && (forall k :: 0 <= k < |log| && IsTool(log[k]) ==> InSome(steps, k))
  }

  lemma WroteStill(log: seq<Event>, more: seq<Event>, x: Stretch)
    requires Wrote(log, x)
    ensures Wrote(log + more, x)
  {
    assert (log + more)[x.at..EndOf(x)] == log[x.at..EndOf(x)];
  }

  lemma DividedGrows(log: seq<Event>, more: seq<Event>, steps: seq<Stretch>)
    requires Divided(log, steps) && forall k :: 0 <= k < |more| ==> !IsTool(more[k])
    ensures Divided(log + more, steps)
  {
    forall n | 0 <= n < |steps| ensures Wrote(log + more, steps[n]) { WroteStill(log, more, steps[n]); }
  }

  lemma InOneMore(steps: seq<Stretch>, x: Stretch, k: int)
    ensures InSome(steps + [x], k) <==> InSome(steps, k) || Within(x, k)
  {
    var steps' := steps + [x];
    assert steps'[|steps|] == x;
    if n :| 0 <= n < |steps| && Within(steps[n], k) {
      assert steps'[n] == steps[n];
    }
  }

  lemma DividedAdds(log: seq<Event>, steps: seq<Stretch>, x: Stretch)
    requires Divided(log, steps) && x.at == |log|
    ensures Divided(log + x.events, steps + [x])
  {
    var more := x.events;
    forall n | 0 <= n < |steps| ensures Wrote(log + more, steps[n]) { WroteStill(log, more, steps[n]); }
    forall k | 0 <= k < |log + more| && IsTool((log + more)[k]) ensures InSome(steps + [x], k) {
      InOneMore(steps, x, k);
    }
  }

  lemma StepDivides(log: seq<Event>, steps: seq<Stretch>, notes: seq<Event>, x: Stretch)
    requires Divided(log, steps) && forall k :: 0 <= k < |notes| ==> !IsTool(notes[k])
    requires x.at == |log| + |notes|
    ensures Divided(log + (notes + x.events), steps + [x])
  {
    DividedGrows(log, notes, steps);
    DividedAdds(log + notes, steps, x);
    assert log + (notes + x.events) == log + notes + x.events;
  }

  /** A step whose events begin at `at`: its notes come first. */
  function StretchAt(at: nat, t: Tools, step: StepResult): (x: Stretch)
    ensures Genuine(x)
  {
    Stretch(at + |Notes(step)|, ToolEvents(t, step), t, step)
  }

  /** `r` is, in the step `x`, the only result after `k` that has its id. */
  ghost predicate OnlyAnswer(log: seq<Event>, x: Stretch, k: nat, r: nat, id: string) {
    && k < r && Within(x, r) && Answers(log, r, id)
    && forall q: nat :: Within(x, q) && Answers(log, q, id) ==> q == r
  }

  /** Event `k` of the log, in the step `x`: a use has its one result there, a result its use. */
  ghost predicate PairedIn(log: seq<Event>, x: Stretch, k: nat)
    requires k < |log|
  {
    && (log[k].ToolUse? ==> exists r: nat :: OnlyAnswer(log, x, k, r, log[k].id))
    && (log[k].ToolResult? ==> exists u: nat :: Within(x, u) && u < k && u < |log| && log[u] == ToolUse(log[k].id))
  }

  lemma StretchIsPaired(log: seq<Event>, x: Stretch, k: nat)
    requires Wrote(log, x) && Within(x, k) && Paired(x.events, k - x.at)
    ensures PairedIn(log, x, k)
  {
    var events := x.events;
    assert forall q :: 0 <= q < |events| ==> log[x.at + q] == events[q];
    assert log[k] == events[k - x.at];
    if log[k].ToolUse? {
      var r: nat :| k - x.at < r && Answers(events, r, log[k].id)
                    && forall q: nat :: Answers(events, q, log[k].id) ==> q == r;
      forall q: nat | Within(x, q) && Answers(log, q, log[k].id) ensures q == x.at + r {
        assert Answers(events, q - x.at, log[k].id);
      }
      assert OnlyAnswer(log, x, k, x.at + r, log[k].id);
    } else if log[k].ToolResult? {
      var u: nat :| u < k - x.at && events[u] == ToolUse(log[k].id);
      assert log[x.at + u] == ToolUse(log[k].id);
    }
  }

  lemma GenuineIsPaired(x: Stretch, k: nat)
    requires Genuine(x) && Proper(x.tools, x.step) && k < |x.events|
    ensures Paired(x.events, k)
  {
    UsesArePaired(x.tools, x.step, k);
  }

  ghost predicate AllPaired(steps: seq<Stretch>) {
    forall n :: 0 <= n < |steps| ==> forall k :: 0 <= k < |steps[n].events| ==> Paired(steps[n].events, k)
  }

  lemma ProperStepsArePaired(steps: seq<Stretch>)
    requires forall n :: 0 <= n < |steps| ==> Genuine(steps[n]) && Proper(steps[n].tools, steps[n].step)
    ensures AllPaired(steps)
  {
    forall n, k | 0 <= n < |steps| && 0 <= k < |steps[n].events| ensures Paired(steps[n].events, k) {
      GenuineIsPaired(steps[n], k);
    }
  }

  lemma DividedIsPaired(log: seq<Event>, steps: seq<Stretch>, k: nat) returns (n: nat)
    requires Divided(log, steps) && AllPaired(steps) && k < |log| && IsTool(log[k])
    ensures n < |steps| && Within(steps[n], k) && PairedIn(log, steps[n], k)
  {
    assert InSome(steps, k);
    n :| n < |steps| && Within(steps[n], k);
    assert Wrote(log, steps[n]) && Paired(steps[n].events, k - steps[n].at);
    StretchIsPaired(log, steps[n], k);
  }

  /** In the whole log every tool use is followed, within its own step, by exactly one result
      with its id, and every result answers an earlier use of its own step. */
  lemma LogIsPaired(log: seq<Event>, steps: seq<Stretch>, k: nat) returns (n: nat)
    requires Divided(log, steps) && k < |log| && IsTool(log[k])
    requires forall n :: 0 <= n < |steps| ==> Genuine(steps[n]) && Proper(steps[n].tools, steps[n].step)
    ensures n < |steps| && Within(steps[n], k) && PairedIn(log, steps[n], k)
  {
    ProperStepsArePaired(steps);
    n := DividedIsPaired(log, steps, k);
  }

  // ----- the callbacks -----

  /** A callback of the SDK. The flags say which span appends fail. */
  datatype Callback =
    | OnPrepareStep(closeFails: bool, startFails: bool)
    | OnStreamError(closeFails: bool)
    | OnStepDone(step: StepResult, asks: set<string>, endFails: bool)

  predicate Faultless(c: Callback) {
    match c
    case OnPrepareStep(closeFails, _) => !closeFails
    case OnStreamError(closeFails) => !closeFails
    case OnStepDone(_, _, endFails) => !endFails
  }

  /** The log, and the start of the request in flight. */
  datatype Spans = Spans(log: seq<Event>, inFlight: Option<nat>)

  /** The end of the request in flight, if there is one; it is over even when the append fails. */
  function Close(x: Spans, isError: bool, fails: bool): Spans {
    Spans(if x.inFlight.Some? && !fails then x.log + [SpanEnd(x.inFlight, isError)] else x.log, None)
  }

  /** What a callback appends. */
  function After(confirm: set<string>, custom: set<string>, x: Spans, c: Callback): Spans {
    match c
    case OnPrepareStep(closeFails, startFails) =>
      var closed := Close(x, true, closeFails);
      if startFails || (closeFails && x.inFlight.Some?) then closed
      else Spans(closed.log + [SpanStart], Some(|closed.log|))
    case OnStreamError(closeFails) => Close(x, true, closeFails)
    case OnStepDone(step, asks, endFails) =>
      if endFails then Spans(x.log, None)
      else Spans(x.log + [SpanEnd(x.inFlight, false)] + StepEvents(Tools(confirm, custom, asks), step), None)
  }

  function AfterAll(confirm: set<string>, custom: set<string>, x: Spans, callbacks: seq<Callback>): Spans {
    if callbacks == [] then x
    else
      After(confirm, custom, AfterAll(confirm, custom, x, callbacks[..|callbacks| - 1]), callbacks[|callbacks| - 1])
  }

  class StepLogger {
    const confirm: set<string>
    const custom: set<string>
    var log: seq<Event>
    var inFlightRequestStart: Option<nat>
    var pendingCustomToolCalls: seq<string>
    var pendingConfirmationCalls: seq<string>
    /** The starts whose closing append failed. */
    ghost var lost: set<nat>
    /** The finished steps. */
    ghost var steps: seq<Stretch>

    function Current(): Spans
      reads this
    {
      Spans(log, inFlightRequestStart)
    }

    function Pending(): PendingCalls
      reads this
    {
      PendingCalls(pendingCustomToolCalls, pendingConfirmationCalls)
    }

    ghost predicate Valid()
      reads this
    {
      && Bracketed(log, inFlightRequestStart, lost) && (forall p :: p in lost ==> p < |log|)
      && Divided(log, steps) && forall n :: 0 <= n < |steps| ==> Genuine(steps[n])
    }

    constructor (confirm: set<string>, custom: set<string>)
      ensures Valid() && log == [] && inFlightRequestStart == None && lost == {} && steps == []
      ensures pendingCustomToolCalls == [] && pendingConfirmationCalls == []
    {
      this.confirm, this.custom := confirm, custom;
      log, inFlightRequestStart, lost, steps := [], None, {}, [];
      pendingCustomToolCalls, pendingConfirmationCalls := [], [];
    }

    /** Cleared before appending, so a failed append never invites a second end. */
    method CloseRequestSpan(isError: bool, fails: bool) returns (threw: bool)
      requires Valid()
      modifies this`log, this`inFlightRequestStart, this`lost
      ensures Valid() && inFlightRequestStart == None && steps == old(steps)
      ensures old(inFlightRequestStart).None? ==> log == old(log) && lost == old(lost) && !threw
      ensures old(inFlightRequestStart).Some? && !fails ==>
                log == old(log) + [SpanEnd(old(inFlightRequestStart), isError)] && lost == old(lost) && !threw
      ensures old(inFlightRequestStart).Some? && fails ==>
                log == old(log) && lost == old(lost) + {old(inFlightRequestStart).value} && threw
    {
      var start := inFlightRequestStart;
      inFlightRequestStart := None;
      if start.None? {
        return false;
      }
      if fails {
        lost := lost + {start.value};
        return true;
      }
      AppendEnd(log, start.value, isError, lost);
      DividedGrows(log, [SpanEnd(start, isError)], steps);
      log := log + [SpanEnd(start, isError)];
      threw := false;
    }

    method PrepareStep(closeFails: bool, startFails: bool) returns (threw: bool)
      requires Valid()
      modifies this`log, this`inFlightRequestStart, this`lost
      ensures Valid() && old(log) <= log && steps == old(steps)
      ensures threw <==> (closeFails && old(inFlightRequestStart).Some?) || startFails
      ensures if threw then inFlightRequestStart == None
              else inFlightRequestStart == Some(|log| - 1) && log[|log| - 1] == SpanStart
      ensures !closeFails ==> lost == old(lost)
      ensures Current() == After(confirm, custom, old(Current()), OnPrepareStep(closeFails, startFails))
      ensures !threw ==>
                log == old(log)
                       + (if old(inFlightRequestStart).Some? then [SpanEnd(old(inFlightRequestStart), true)] else [])
                       + [SpanStart]
    {
      threw := CloseRequestSpan(true, closeFails);
      if threw {
        return;
      }
      if startFails {
        return true;
      }
      AppendStart(log, lost);
      DividedGrows(log, [SpanStart], steps);
      log := log + [SpanStart];
      inFlightRequestStart := Some(|log| - 1);
    }

    /** The end that a finished step appends, which names no start when none is in flight. */
    method EndStep(fails: bool)
      requires Valid()
      modifies this`log, this`inFlightRequestStart, this`lost
      ensures Valid() && inFlightRequestStart == None && steps == old(steps)
      ensures if fails then log == old(log)
              else log == old(log) + [SpanEnd(old(inFlightRequestStart), false)] && lost == old(lost)
    {
      var start := inFlightRequestStart;
      inFlightRequestStart := None;
      if fails {
        lost := if start.Some? then lost + {start.value} else lost;
        return;
      }
      if start.Some? {
        AppendEnd(log, start.value, false, lost);
      } else {
        AppendOther(log, [SpanEnd(None, false)], None, lost);
      }
      DividedGrows(log, [SpanEnd(start, false)], steps);
      log := log + [SpanEnd(start, false)];
    }

    method OnStepFinish(step: StepResult, asks: set<string>, endFails: bool) returns (threw: bool)
      requires Valid()
      modifies this
      ensures Valid() && inFlightRequestStart == None && threw == endFails
      ensures endFails ==>
                && log == old(log) && steps == old(steps)
                && pendingCustomToolCalls == old(pendingCustomToolCalls)
                && pendingConfirmationCalls == old(pendingConfirmationCalls)
      ensures !endFails ==>
                && lost == old(lost)
                && log == old(log) + [SpanEnd(old(inFlightRequestStart), false)]
                          + StepEvents(Tools(confirm, custom, asks), step)
                && steps == old(steps) + [StretchAt(|old(log)| + 1, Tools(confirm, custom, asks), step)]
                && pendingCustomToolCalls
                   == old(pendingCustomToolCalls) + CallerIds(Tools(confirm, custom, asks), step)
                && pendingConfirmationCalls
                   == old(pendingConfirmationCalls) + ConfirmationIds(Tools(confirm, custom, asks), step)
    {
      EndStep(endFails);
      threw := endFails;
      if !threw {
        LogFinishedStep(step, asks);
      }
    }

    method LogFinishedStep(step: StepResult, asks: set<string>)
      requires Valid() && inFlightRequestStart == None
      modifies this
      ensures Valid() && inFlightRequestStart == None && lost == old(lost)
      ensures log == old(log) + StepEvents(Tools(confirm, custom, asks), step)
      ensures steps == old(steps) + [StretchAt(|old(log)|, Tools(confirm, custom, asks), step)]
      ensures pendingCustomToolCalls == old(pendingCustomToolCalls) + CallerIds(Tools(confirm, custom, asks), step)
      ensures pendingConfirmationCalls
           == old(pendingConfirmationCalls) + ConfirmationIds(Tools(confirm, custom, asks), step)
    {
      ghost var t := Tools(confirm, custom, asks);
      ghost var x := StretchAt(|log|, t, step);
      StepDivides(log, steps, Notes(step), x);
      NoSpansInside(t, step);
      AppendOther(log, StepEvents(t, step), None, lost);
      LogStep(step, asks);
      steps := steps + [x];
    }

    /** Everything a step logs after its span. */
    method LogStep(step: StepResult, asks: set<string>)
      modifies this`log, this`pendingCustomToolCalls, this`pendingConfirmationCalls
      ensures log == old(log) + StepEvents(Tools(confirm, custom, asks), step)
      ensures pendingCustomToolCalls == old(pendingCustomToolCalls) + CallerIds(Tools(confirm, custom, asks), step)
      ensures pendingConfirmationCalls
           == old(pendingConfirmationCalls) + ConfirmationIds(Tools(confirm, custom, asks), step)
    {
      if step.reasoning {
        log := log + [AgentThinking];
      }
      if step.text {
        log := log + [AgentMessage];
      }
      assert log == old(log) + Notes(step);
      LogUses(step, asks);
      LogResults(step.results);
      LogMissing(step, asks);
      ghost var t := Tools(confirm, custom, asks);
      StepJoins(old(log), Notes(step), UsesOf(UseIds(t, step)), ResultsOf(step.results),
              ErrorsOf(Select(step.calls, c => Unanswered(t, step, c))));
    }

    /** The second loop. */
    method LogResults(results: seq<Result>)
      modifies this`log
      ensures log == old(log) + ResultsOf(results)
    {
      var k := 0;
      while k < |results|
        invariant 0 <= k <= |results|
        invariant log == old(log) + ResultsOf(results[..k])
      {
        log := log + [ToolResult(results[k].id, results[k].isError)];
        k := k + 1;
        assert ResultsOf(results[..k]) == ResultsOf(results[..k - 1]) + [log[|log| - 1]];
      }
      assert results[..k] == results;
    }

    /** The first loop: log, or park. */
    method LogUses(step: StepResult, asks: set<string>)
      modifies this`log, this`pendingCustomToolCalls, this`pendingConfirmationCalls
      ensures var t := Tools(confirm, custom, asks);
        && log == old(log) + UsesOf(UseIds(t, step))
        && pendingCustomToolCalls == old(pendingCustomToolCalls) + CallerIds(t, step)
        && pendingConfirmationCalls == old(pendingConfirmationCalls) + ConfirmationIds(t, step)
    {
      ghost var t := Tools(confirm, custom, asks);
      ghost var keep := (c: Call) => Logged(t, step, c);
      ghost var forCaller := (c: Call) => ParkedForCaller(t, step, c);
      ghost var forConfirmation := (c: Call) => ParkedForConfirmation(t, step, c);
      var k := 0;
      while k < |step.calls|
        invariant 0 <= k <= |step.calls|
        invariant log == old(log) + UsesOf(Select(step.calls[..k], keep))
        invariant pendingCustomToolCalls == old(pendingCustomToolCalls) + Select(step.calls[..k], forCaller)
        invariant pendingConfirmationCalls
               == old(pendingConfirmationCalls) + Select(step.calls[..k], forConfirmation)
      {
        assert step.calls[..k + 1][..k] == step.calls[..k];
        LogOrPark(step, asks, step.calls[k]);
        k := k + 1;
      }
      assert step.calls[..k] == step.calls;
    }

    method LogOrPark(step: StepResult, asks: set<string>, c: Call)
      modifies this`log, this`pendingCustomToolCalls, this`pendingConfirmationCalls
      ensures var t := Tools(confirm, custom, asks);
        && log == old(log) + UsesOf(if Logged(t, step, c) then [c.id] else [])
        && pendingCustomToolCalls
           == old(pendingCustomToolCalls) + (if ParkedForCaller(t, step, c) then [c.id] else [])
        && pendingConfirmationCalls
           == old(pendingConfirmationCalls) + (if ParkedForConfirmation(t, step, c) then [c.id] else [])
    {
      if c.name in custom {
        if !HasResult(step, c.id) {
          pendingCustomToolCalls := pendingCustomToolCalls + [c.id];
        }
        return;
      }
      if (c.name in confirm || c.id in asks) && !HasResult(step, c.id) {
        pendingConfirmationCalls := pendingConfirmationCalls + [c.id];
        return;
      }
      log := log + [ToolUse(c.id)];
    }

    /** The third loop: a use that nothing answered gets an error result. */
    method LogMissing(step: StepResult, asks: set<string>)
      modifies this`log
      ensures var t := Tools(confirm, custom, asks);
        log == old(log) + ErrorsOf(Select(step.calls, c => Unanswered(t, step, c)))
    {
      ghost var t := Tools(confirm, custom, asks);
      ghost var keep := (c: Call) => Unanswered(t, step, c);
      var k := 0;
      while k < |step.calls|
        invariant 0 <= k <= |step.calls|
        invariant log == old(log) + ErrorsOf(Select(step.calls[..k], keep))
      {
        var c := step.calls[k];
        assert step.calls[..k + 1][..k] == step.calls[..k];
        k := k + 1;
        if HasResult(step, c.id) {
          continue;
        }
        if c.name in custom || c.name in confirm {
          continue;
        }
        if c.id in asks {
          continue;
        }
        log := log + [ToolResult(c.id, true)];
      }
      assert step.calls[..k] == step.calls;
    }

    method On(callback: Callback)
      requires Valid()
      modifies this
      ensures Valid() && (Faultless(callback) ==> lost == old(lost))
      ensures Current() == After(confirm, custom, old(Current()), callback)
      ensures Finished(steps) == Finished(old(steps)) + FinishedBy(confirm, custom, callback)
      ensures Pending() == BothPending(old(Pending()), PendingAfter(FinishedBy(confirm, custom, callback)))
    {
      PendingOfOne(confirm, custom, callback);
      match callback {
        case OnPrepareStep(closeFails, startFails) => var _ := PrepareStep(closeFails, startFails);
        case OnStreamError(closeFails) => var _ := CloseRequestSpan(true, closeFails);
        case OnStepDone(step, asks, endFails) =>
          ghost var at := |log| + 1;
          var _ := OnStepFinish(step, asks, endFails);
          if !endFails { OneMoreFinished(old(steps), StretchAt(at, Tools(confirm, custom, asks), step)); }
      }
    }

    /** Any sequence of callbacks, then the catch path: nothing is left open, no start was
        closed twice, and only a failed append leaves a start without its end; and the log is
        divided into the steps that finished, in their order; and the calls that those steps left to
        the caller, or to be confirmed, are pending, in that order too. `AfterAll` says which events
        there are. */
    method RunAndUnwind(callbacks: seq<Callback>, catchFails: bool)
      requires Valid() && inFlightRequestStart == None && lost == {} && steps == []
      modifies this
      ensures Bracketed(log, None, lost)
      ensures Divided(log, steps) && forall n :: 0 <= n < |steps| ==> Genuine(steps[n])
      ensures !catchFails && (forall i :: 0 <= i < |callbacks| ==> Faultless(callbacks[i])) ==> lost == {}
      ensures Finished(steps) == AllFinishedBy(confirm, custom, callbacks)
      ensures Pending() == BothPending(old(Pending()), PendingAfter(Finished(steps)))
      ensures Current() == Close(AfterAll(confirm, custom, old(Current()), callbacks), true, catchFails)
    {
      RunAll(callbacks);
      var _ := CloseRequestSpan(true, catchFails);
    }

    method RunAll(callbacks: seq<Callback>)
      requires Valid() && lost == {} && steps == []
      modifies this
      ensures Ran(old(Pending()), old(Current()), callbacks)
    {
      ghost var start, begin := Pending(), Current();
      NothingPending(start);
      var k := 0;
      while k < |callbacks|
        invariant 0 <= k <= |callbacks| && Ran(start, begin, callbacks[..k])
      {
        assert callbacks[..k + 1] == callbacks[..k] + [callbacks[k]];
        OneMore(callbacks[k], start, begin, callbacks[..k]);
        k := k + 1;
      }
      assert callbacks[..k] == callbacks;
    }

    /** What holds once these callbacks have run. */
    ghost predicate Ran(start: PendingCalls, begin: Spans, callbacks: seq<Callback>)
      reads this
    {
      && Valid()
      && ((forall i :: 0 <= i < |callbacks| ==> Faultless(callbacks[i])) ==> lost == {})
      && Finished(steps) == AllFinishedBy(confirm, custom, callbacks)
      && Pending() == BothPending(start, PendingAfter(Finished(steps)))
      && Current() == AfterAll(confirm, custom, begin, callbacks)
    }

    method OneMore(callback: Callback, ghost start: PendingCalls, ghost begin: Spans, ghost callbacks: seq<Callback>)
      requires Ran(start, begin, callbacks)
      modifies this
      ensures Ran(start, begin, callbacks + [callback])
    {
      ghost var was, all := Finished(steps), callbacks + [callback];
      assert all[..|callbacks|] == callbacks && all[|callbacks|] == callback;
      On(callback);
      MorePending(start, was, FinishedBy(confirm, custom, callback));
      assert forall i :: 0 <= i < |callbacks| ==> all[i] == callbacks[i];
    }
  }

  function Finished(steps: seq<Stretch>): seq<(Tools, StepResult)> {
    if steps == [] then []
    else Finished(steps[..|steps| - 1]) + [(steps[|steps| - 1].tools, steps[|steps| - 1].step)]
  }

  function AllCallerIds(done: seq<(Tools, StepResult)>): seq<string> {
    if done == [] then []
    else AllCallerIds(done[..|done| - 1]) + CallerIds(done[|done| - 1].0, done[|done| - 1].1)
  }

  function AllConfirmationIds(done: seq<(Tools, StepResult)>): seq<string> {
    if done == [] then []
    else AllConfirmationIds(done[..|done| - 1]) + ConfirmationIds(done[|done| - 1].0, done[|done| - 1].1)
  }

  /** What the two lists of pending calls hold. */
  datatype PendingCalls = PendingCalls(forCaller: seq<string>, toConfirm: seq<string>)

  function BothPending(a: PendingCalls, b: PendingCalls): PendingCalls {
    PendingCalls(a.forCaller + b.forCaller, a.toConfirm + b.toConfirm)
  }

  /** What some finished steps leave pending, one step after another. */
  function PendingAfter(done: seq<(Tools, StepResult)>): PendingCalls {
    PendingCalls(AllCallerIds(done), AllConfirmationIds(done))
  }

  lemma NothingPending(start: PendingCalls)
    ensures BothPending(start, PendingAfter([])) == start
  {
  }

  lemma PendingOfOne(confirm: set<string>, custom: set<string>, c: Callback)
    ensures PendingAfter(FinishedBy(confirm, custom, c)) ==
            if c.OnStepDone? && !c.endFails
            then PendingCalls(CallerIds(Tools(confirm, custom, c.asks), c.step),
                              ConfirmationIds(Tools(confirm, custom, c.asks), c.step))
            else PendingCalls([], [])
  {
    var done := FinishedBy(confirm, custom, c);
    if done != [] { PendingOfStep(done[0].0, done[0].1); }
  }

  lemma PendingOfStep(t: Tools, step: StepResult)
    ensures AllCallerIds([(t, step)]) == CallerIds(t, step)
    ensures AllConfirmationIds([(t, step)]) == ConfirmationIds(t, step)
  {
    var one := [(t, step)];
    assert one[..|one| - 1] == [];
    assert [] + CallerIds(t, step) == CallerIds(t, step) && [] + ConfirmationIds(t, step) == ConfirmationIds(t, step);
  }

  lemma MorePending(start: PendingCalls, done: seq<(Tools, StepResult)>, more: seq<(Tools, StepResult)>)
    requires |more| <= 1
    ensures BothPending(BothPending(start, PendingAfter(done)), PendingAfter(more))
         == BothPending(start, PendingAfter(done + more))
  {
    if more == [] {
      assert done + more == done;
    } else {
      assert (done + more)[..|done|] == done && more == [(more[0].0, more[0].1)];
      PendingOfStep(more[0].0, more[0].1);
    }
    assert PendingAfter(done + more) == BothPending(PendingAfter(done), PendingAfter(more));
    Regroup(start.forCaller, PendingAfter(done).forCaller, PendingAfter(more).forCaller);
    Regroup(start.toConfirm, PendingAfter(done).toConfirm, PendingAfter(more).toConfirm);
  }

  lemma OneMoreFinished(steps: seq<Stretch>, x: Stretch)
    ensures Finished(steps + [x]) == Finished(steps) + [(x.tools, x.step)]
  {
  }

  /** The step that a callback finishes, unless its first append fails. */
  function FinishedBy(confirm: set<string>, custom: set<string>, c: Callback): seq<(Tools, StepResult)> {
    if c.OnStepDone? && !c.endFails then [(Tools(confirm, custom, c.asks), c.step)] else []
  }

  function AllFinishedBy(confirm: set<string>, custom: set<string>, callbacks: seq<Callback>)
    : seq<(Tools, StepResult)>
  {
    if callbacks == [] then []
    else AllFinishedBy(confirm, custom, callbacks[..|callbacks| - 1])
         + FinishedBy(confirm, custom, callbacks[|callbacks| - 1])
  }
}
