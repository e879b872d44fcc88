/** A bounded wait on an item while the queue runs on: what its polls saw is what a growing run
    had made of the row, and what the wait reports is true of that run. */
module Waits {
  import opened Wrappers
  import opened WorkRows
  import opened Protocol
  import opened RunTruths
  import opened Queue
  import opened QueueLaws

  function ItemOf(rows: Rows, id: nat): Option<Row> {
    if id < |rows| then Some(rows[id]) else None
  }

  /** Poll `k` read the item after the steps `runs[k]`, each run going on from the one before. */
  ghost predicate Polled(s: Setting, id: nat, polls: seq<Poll>, runs: seq<seq<Step>>) {
    && |runs| == |polls|
    && (forall k :: 0 <= k < |polls| ==> polls[k].item == ItemOf(Run(s, START, runs[k]).rows, id))
    && forall j, k :: 0 <= j < k < |runs| ==> runs[j] <= runs[k]
  }

  /** Nobody was handed the item, accepted it, started it or completed it. */
  ghost predicate Untouched(c: Config, id: nat) {
    && id !in c.history.handed && id !in c.history.accepted
    && !Executed(c, id) && !CompletedIn(c.history.completions, id)
  }

  /** This outcome of the item was reported by its holder. */
  ghost predicate Reported(c: Config, id: nat, result: Option<string>, failed: bool) {
    exists x :: x in c.history.completions && x.item == id && x.failed == failed && Some(x.result) == result
  }

  lemma FinishedWasReported(s: Setting, c: Config, id: nat)
    requires Reachable(s, c) && id < |c.rows| && Settled(c.rows[id])
    ensures Reported(c, id, c.rows[id].result, c.rows[id].status == Failed)
  {
    ReachableKeeps(s, c);
    var xs := c.history.completions;
    var k :| 0 <= k < |xs| && xs[k].item == id;
    assert RecordedOn(c.rows, xs[k]) && xs[k] in xs;
  }

  lemma UnfinishedWasNotReported(s: Setting, c: Config, id: nat)
    requires Reachable(s, c) && !Finished(ItemOf(c.rows, id))
    ensures !CompletedIn(c.history.completions, id)
  {
    ReachableKeeps(s, c);
    var xs := c.history.completions;
    if k :| 0 <= k < |xs| && xs[k].item == id {
      assert RecordedOn(c.rows, xs[k]);
    }
  }

  /** Why a wait on an item without an outcome ends: the item was stopped; nobody ever took or renewed a
      lease on it; or its outcome is not known. */
  function CodeAfter(c: Config, id: nat): WaitCode {
    if id >= |c.rows| then OutcomeUnknown
    else if c.rows[id].stoppedAt.Some? then WorkLeaseLost
    else if id !in c.history.renewedAt then QueueTimeout
    else OutcomeUnknown
  }

  lemma CodeIsTrue(s: Setting, c: Config, id: nat)
    requires Reachable(s, c) && !Finished(ItemOf(c.rows, id))
    ensures WaitCodeFor(ItemOf(c.rows, id)) == CodeAfter(c, id)
  {
    if id < |c.rows| { WaitCodeIs(s, c, id); }
  }

  /** A bounded wait over any run. It times out only when no outcome had been reported at any of
      its polls; it says `work_queue_timeout` only when up to its last poll nobody had been handed,
      accepted, started or completed the item; and a result is the one that was reported. The other
      codes are exact too. */
  method AwaitInRun(queue: WorkQueue, s: Setting, id: nat, started: int, timeoutMs: int, polls: seq<Poll>,
                    ghost runs: seq<seq<Step>>)
    returns (outcome: WaitOutcome, used: nat)
    requires Polled(s, id, polls, runs)
    modifies queue`rows
    ensures used <= |polls| && (outcome != StillWaiting ==> used > 0)
    ensures outcome.TimedOut? ==>
              && polls[used - 1].at > started + timeoutMs
              && forall k :: 0 <= k < used ==> !CompletedIn(Run(s, START, runs[k]).history.completions, id)
    ensures outcome == TimedOut(QueueTimeout) ==> Untouched(Run(s, START, runs[used - 1]), id)
    ensures outcome.TimedOut? ==> outcome.code == CodeAfter(Run(s, START, runs[used - 1]), id)
    ensures outcome.Result? ==> Reported(Run(s, START, runs[used - 1]), id, outcome.value, false)
    ensures outcome.ItemFailed? ==> Reported(Run(s, START, runs[used - 1]), id, outcome.value, true)
  {
    outcome, used := queue.Await(id, started, timeoutMs, polls);
    if outcome != StillWaiting {
      ghost var c := Run(s, START, runs[used - 1]);
      assert Reachable(s, c) && polls[used - 1].item == ItemOf(c.rows, id);
      if outcome.TimedOut? {
        forall k | 0 <= k < used ensures !CompletedIn(Run(s, START, runs[k]).history.completions, id) {
          assert Reachable(s, Run(s, START, runs[k]));
          UnfinishedWasNotReported(s, Run(s, START, runs[k]), id);
        }
        CodeIsTrue(s, c, id);
        if outcome.code == QueueTimeout {
          QueueTimeoutIsTruthful(s, c, id);
        }
      } else {
        FinishedWasReported(s, c, id);
      }
    }
  }
}
