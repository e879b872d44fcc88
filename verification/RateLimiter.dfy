/** The inbound rate limiter: an anchored fixed window and its counters, under any
    sequence of clock readings. */
module RateLimiter {
  import opened Wrappers
  import opened Basics

  const WINDOW_MS: int := 60000

  datatype Kind = Read | Write

  datatype Bucket = Bucket(identity: string, kind: Kind)

  /** `limited` is whether the policy applies: not switched off, not a preflight, not a health check. */
  datatype Request = Request(bucket: Bucket, limited: bool, at: int)

  datatype Reply = PassedThrough | Admitted(remaining: nat) | Refused(retryAfter: int)

  datatype Limits = Limits(read: nat, write: nat)

  function LimitFor(limits: Limits, kind: Kind): nat {
    if kind == Read then limits.read else limits.write
  }

  /** The window's anchor is minus infinity, written None, until a first request opens one. */
  datatype State = State(windowStart: Option<int>, counters: map<Bucket, nat>)

  const FRESH := State(None, map[])

  predicate InWindow(s: State, at: int) {
    s.windowStart.Some? && at < s.windowStart.value + WINDOW_MS
  }

  function Count(s: State, b: Bucket): nat {
    if b in s.counters then s.counters[b] else 0
  }

  /** A request outside the window opens a new one, with every counter at zero. */
  function Opened(s: State, at: int): State {
    if InWindow(s, at) then s else State(Some(at), map[])
  }

  function CeilSeconds(ms: int): int {
    -((-ms) / 1000)
  }

  function RetryAfter(s: State, at: int): int
    requires s.windowStart.Some?
  {
    var seconds := CeilSeconds(s.windowStart.value + WINDOW_MS - at);
    if seconds < 1 then 1 else seconds
  }

  function Step(limits: Limits, s: State, r: Request): (State, Reply) {
    if !r.limited then (s, PassedThrough)
    else
      var o := Opened(s, r.at);
      var used, limit := Count(o, r.bucket), LimitFor(limits, r.bucket.kind);
      if used >= limit then (o, Refused(RetryAfter(o, r.at)))
      else (o.(counters := o.counters[r.bucket := used + 1]), Admitted(limit - used - 1))
  }

  function Run(limits: Limits, s: State, rs: seq<Request>): State {
    if rs == [] then s
    else Step(limits, Run(limits, s, rs[..|rs| - 1]), rs[|rs| - 1]).0
  }

  /** The reply to the last of some requests. */
  function LastReply(limits: Limits, s: State, rs: seq<Request>): Reply
    requires rs != []
  {
    Step(limits, Run(limits, s, rs[..|rs| - 1]), rs[|rs| - 1]).1
  }

  class Limiter {
    const limits: Limits
    var windowStart: Option<int>
    var counters: map<Bucket, nat>

    constructor (limits: Limits)
      ensures this.limits == limits && Current() == FRESH
    {
      this.limits := limits;
      windowStart, counters := None, map[];
    }

    function Current(): State
      reads this
    {
      State(windowStart, counters)
    }

    method Handle(r: Request) returns (reply: Reply)
      modifies this
      ensures (Current(), reply) == Step(limits, old(Current()), r)
    {
      if !r.limited {
        return PassedThrough;
      }
      var limit := LimitFor(limits, r.bucket.kind);
      if !(windowStart.Some? && r.at < windowStart.value + WINDOW_MS) {
        windowStart := Some(r.at);
        counters := map[];
      }
      var used := if r.bucket in counters then counters[r.bucket] else 0;
      var seconds := CeilSeconds(windowStart.value + WINDOW_MS - r.at);
      var retryAfterSeconds := if 1 < seconds then seconds else 1;
      if used >= limit {
        return Refused(retryAfterSeconds);
      }
      counters := counters[r.bucket := used + 1];
      reply := Admitted(if limit - used - 1 < 0 then 0 else limit - used - 1);
    }
  }

  // ----- the bound -----

  /** How many requests of a bucket were admitted. */
  function AdmittedTo(limits: Limits, rs: seq<Request>, b: Bucket): nat {
    if rs == [] then 0
    else
      AdmittedTo(limits, rs[..|rs| - 1], b)
      + (if rs[|rs| - 1].bucket == b && LastReply(limits, FRESH, rs).Admitted? then 1 else 0)
  }

  /** How many windows were opened. */
  function Windows(limits: Limits, rs: seq<Request>): nat {
    if rs == [] then 0
    else
      var before, r := rs[..|rs| - 1], rs[|rs| - 1];
      Windows(limits, before) + (if r.limited && !InWindow(Run(limits, FRESH, before), r.at) then 1 else 0)
  }

  /** The clock reading of the first limited request. */
  function FirstReading(rs: seq<Request>): Option<int> {
    if rs == [] then None
    else
      var before, r := FirstReading(rs[..|rs| - 1]), rs[|rs| - 1];
      if before.None? && r.limited then Some(r.at) else before
  }

  /** No limited request read more than `highest`. */
  predicate ReadAtMost(rs: seq<Request>, highest: int) {
    rs != [] ==>
      ReadAtMost(rs[..|rs| - 1], highest) && (rs[|rs| - 1].limited ==> rs[|rs| - 1].at <= highest)
  }

  /** Windows start at least a window's length apart, at readings that were seen. */
  lemma {:induction false} WindowsAreApart(limits: Limits, rs: seq<Request>, highest: int)
    requires ReadAtMost(rs, highest)
    ensures var s, k, first := Run(limits, FRESH, rs), Windows(limits, rs), FirstReading(rs);
      && (s.windowStart.None? <==> k == 0) && (k == 0 <==> first.None?)
      && (k > 0 ==> first.value + (k - 1) * WINDOW_MS <= s.windowStart.value <= highest)
    decreases |rs|
  {
    if rs != [] {
      WindowsAreApart(limits, rs[..|rs| - 1], highest);
    }
  }

  /** Each closed window admitted at most the limit, the open one exactly its counter. */
  lemma {:induction false} AdmittedPerWindow(limits: Limits, rs: seq<Request>, b: Bucket)
    ensures var s, k, limit := Run(limits, FRESH, rs), Windows(limits, rs), LimitFor(limits, b.kind);
      && Count(s, b) <= limit
      && (s.windowStart.None? <==> k == 0)
      && (k == 0 ==> AdmittedTo(limits, rs, b) == 0 && Count(s, b) == 0)
      && (k > 0 ==> AdmittedTo(limits, rs, b) + limit <= Times(limit, k) + Count(s, b))
    decreases |rs|
  {
    if rs != [] {
      var before := rs[..|rs| - 1];
      AdmittedPerWindow(limits, before, b);
    }
  }

  /** `limit * k`, by addition. */
  function Times(limit: nat, k: nat): (product: nat)
    ensures product == limit * k
  {
    if k == 0 then 0 else
      assert limit * k == limit * (k - 1) + limit;
      Times(limit, k - 1) + limit
  }

  lemma {:induction false} TimesGrows(limit: nat, a: nat, b: nat)
    requires a <= b
    ensures Times(limit, a) <= Times(limit, b)
    decreases b
  {
  }

  /** Whatever the clock reads, even backwards, a bucket is admitted at most its limit once
      at the start and once more for each whole minute the readings climb. */
  lemma AdmissionBound(limits: Limits, rs: seq<Request>, b: Bucket, first: int, highest: int)
    requires ReadAtMost(rs, highest) && first <= highest
    requires FirstReading(rs).Some? ==> FirstReading(rs).value == first
    ensures AdmittedTo(limits, rs, b) <= LimitFor(limits, b.kind) * (1 + (highest - first) / WINDOW_MS)
  {
    WindowsAreApart(limits, rs, highest);
    AdmittedPerWindow(limits, rs, b);
    TimesGrows(LimitFor(limits, b.kind), Windows(limits, rs), 1 + (highest - first) / WINDOW_MS);
  }

  // ----- Retry-After -----

  /** While a bucket stays silent its window is still the one it was refused in, or its
      counter is zero. */
  lemma {:induction false} SilentBucket(limits: Limits, s: State, others: seq<Request>, b: Bucket)
    requires forall o :: o in others ==> o.bucket != b
    ensures var s' := Run(limits, s, others); s'.windowStart == s.windowStart || Count(s', b) == 0
    decreases |others|
  {
    if others != [] {
      var before := others[..|others| - 1];
      assert forall o :: o in before ==> o in others;
      SilentBucket(limits, s, before, b);
      assert others[|others| - 1].bucket != b;
    }
  }

  lemma {:induction false} RunInTwo(limits: Limits, s: State, a: seq<Request>, b: seq<Request>)
    ensures Run(limits, s, a + b) == Run(limits, Run(limits, s, a), b)
    decreases |b|
  {
    if b == [] {
      assert a + b == a;
    } else {
      RunInTwo(limits, s, a, b[..|b| - 1]);
      assert (a + b)[..|a + b| - 1] == a + b[..|b| - 1];
    }
  }

  /** A refused caller whose next request comes at least Retry-After seconds later is
      admitted, whatever other buckets do meanwhile, exactly when its limit is not zero. */
  lemma RetryAfterIsEnough(limits: Limits, rs: seq<Request>, others: seq<Request>, again: Request)
    requires rs != [] && LastReply(limits, FRESH, rs).Refused?
    requires forall o :: o in others ==> o.bucket != again.bucket
    requires again.limited && again.bucket == rs[|rs| - 1].bucket
    requires again.at >= rs[|rs| - 1].at + 1000 * LastReply(limits, FRESH, rs).retryAfter
    ensures LastReply(limits, FRESH, rs + others + [again]).Admitted? <==> LimitFor(limits, again.bucket.kind) > 0
  {
    var s := Run(limits, FRESH, rs);
    var all := rs + others + [again];
    assert all[..|all| - 1] == rs + others;
    RunInTwo(limits, FRESH, rs, others);
    SilentBucket(limits, s, others, again.bucket);
    assert s.windowStart.value + WINDOW_MS <= again.at;
  }

  /** A limit of zero is reachable: a configured half request a minute admits nobody. */
  lemma HalfARequestIsNone(rs: seq<Request>, b: Bucket)
    ensures PositiveFloor(Some(0.5), 1200) == 0
    ensures AdmittedTo(Limits(PositiveFloor(Some(0.5), 1200), 0), rs, b) == 0
    decreases |rs|
  {
  }

  // ----- every reply -----

  /** The request is limited and comes a minute or more after the window before it was opened. */
  predicate OpensWindow(before: seq<Request>, r: Request)
    decreases |before|, 1
  {
    r.limited && (Anchor(before).None? || r.at >= Anchor(before).value + 60000)
  }

  /** The reading that opened the current window. */
  function Anchor(rs: seq<Request>): Option<int>
    decreases |rs|, 0
  {
    if rs == [] then None
    else
      var before, r := rs[..|rs| - 1], rs[|rs| - 1];
      if OpensWindow(before, r) then Some(r.at) else Anchor(before)
  }

  /** How many requests of a bucket were admitted since then. */
  function AdmittedSince(limits: Limits, rs: seq<Request>, b: Bucket): nat {
    if rs == [] then 0
    else
      var before, r := rs[..|rs| - 1], rs[|rs| - 1];
      (if OpensWindow(before, r) then 0 else AdmittedSince(limits, before, b))
      + if r.bucket == b && LastReply(limits, FRESH, rs).Admitted? then 1 else 0
  }

  lemma {:induction false} StateIsRecent(limits: Limits, rs: seq<Request>, b: Bucket)
    ensures var s := Run(limits, FRESH, rs);
      s.windowStart == Anchor(rs) && Count(s, b) == AdmittedSince(limits, rs, b)
    decreases |rs|
  {
    if rs != [] { StateIsRecent(limits, rs[..|rs| - 1], b); }
  }

  /** Under any readings, a limited request is admitted exactly while fewer of its bucket than its
      limit, for reads or for writes, were admitted in its window, and is told how many are
      left; a refused one is told the least whole number of seconds, one at least, after which
      the window is over. */
  lemma RepliesAreExact(limits: Limits, before: seq<Request>, r: Request)
    ensures var reply := LastReply(limits, FRESH, before + [r]);
      var used := if OpensWindow(before, r) then 0 else AdmittedSince(limits, before, r.bucket);
      var limit := match r.bucket.kind case Read => limits.read case Write => limits.write;
      if !r.limited then reply == PassedThrough
      else if used < limit then reply == Admitted(limit - used - 1)
      else
        && reply.Refused? && reply.retryAfter >= 1 && Anchor(before + [r]).Some?
        && var left := Anchor(before + [r]).value + 60000 - r.at;
           left <= 1000 * reply.retryAfter && (reply.retryAfter == 1 || 1000 * (reply.retryAfter - 1) < left)
  {
    StateIsRecent(limits, before, r.bucket);
    assert (before + [r])[..|before|] == before;
  }

  /** A request that is not limited leaves no trace. */
  lemma UnlimitedLeavesNoTrace(limits: Limits, before: seq<Request>, r: Request, b: Bucket)
    requires !r.limited
    ensures Anchor(before + [r]) == Anchor(before)
    ensures AdmittedSince(limits, before + [r], b) == AdmittedSince(limits, before, b)
  {
    assert (before + [r])[..|before|] == before;
    RepliesAreExact(limits, before, r);
  }
}
