/** Keyset paging of the work list: following cursors visits every row once, except where the
    official route asks the queue for one row more than it gives. */
module Paging {
  import opened Wrappers
  import opened WorkRows

  datatype Key = Key(createdAt: int, rowId: nat)

  function KeyOf(rows: Rows, i: nat): Key
    requires i < |rows|
  {
    Key(rows[i].createdAt, i)
  }

  predicate KeyLess(a: Key, b: Key) {
    a.createdAt < b.createdAt || (a.createdAt == b.createdAt && a.rowId < b.rowId)
  }

  function Matching(rows: Rows, sessions: Sessions, env: Option<string>): set<nat> {
    set i: nat | i < |rows| && (Given(env) ==> InEnvironment(sessions, rows[i], env.value))
  }

  /** `created_at < ? OR (created_at = ? AND rowid < ?)`, when a cursor is given. */
  function Below(rows: Rows, ids: set<nat>, after: Option<Key>): set<nat>
    requires forall i :: i in ids ==> i < |rows|
  {
    set i | i in ids && (after.Some? ==> KeyLess(KeyOf(rows, i), after.value))
  }

  /** The largest key among the rows below `n`. */
  function Newest(rows: Rows, ids: set<nat>, n: nat): (found: Option<nat>)
    requires n <= |rows|
    ensures found.Some? ==> found.value < n
  {
    if n == 0 then None
    else
      var best := Newest(rows, ids, n - 1);
      if n - 1 in ids && (best.None? || rows[n - 1].createdAt >= rows[best.value].createdAt) then Some(n - 1) else best
  }

  lemma {:induction false} NewestIs(rows: Rows, ids: set<nat>, n: nat)
    requires n <= |rows|
    ensures var found := Newest(rows, ids, n);
      && (found.None? ==> forall i: nat :: i < n ==> i !in ids)
      && (found.Some? ==>
            && found.value in ids
            && forall j: nat :: j < n && j in ids && j != found.value ==>
                 KeyLess(KeyOf(rows, j), KeyOf(rows, found.value)))
  {
    if n > 0 { NewestIs(rows, ids, n - 1); }
  }

  /** `ORDER BY created_at DESC, rowid DESC` over the given rows. */
  function NewestFirst(rows: Rows, ids: set<nat>): (out: seq<nat>)
    requires forall i :: i in ids ==> i < |rows|
    ensures forall j :: 0 <= j < |out| ==> out[j] < |rows|
    decreases |ids|
  {
    if ids == {} then []
    else
      NewestIs(rows, ids, |rows|);
      var first := Newest(rows, ids, |rows|);
      if first.None? then assert false; []
      else
        var rest := NewestFirst(rows, ids - {first.value});
        [first.value] + rest
  }

  /** `out` holds every row of `ids` once, in strictly descending key order. */
  ghost predicate Descends(rows: Rows, ids: set<nat>, out: seq<nat>) {
    && (forall j :: 0 <= j < |out| ==> out[j] in ids && out[j] < |rows|)
    && (forall i :: i in ids ==> i in out)
    && (forall j, k :: 0 <= j < k < |out| ==> KeyLess(KeyOf(rows, out[k]), KeyOf(rows, out[j])))
  }

  lemma DescendsFrom(rows: Rows, ids: set<nat>, first: nat, rest: seq<nat>)
    requires first in ids && first < |rows| && Descends(rows, ids - {first}, rest)
    requires forall i :: i in ids && i != first ==> i < |rows| && KeyLess(KeyOf(rows, i), KeyOf(rows, first))
    ensures Descends(rows, ids, [first] + rest)
  {
  }

  lemma {:induction false} NewestFirstSorts(rows: Rows, ids: set<nat>)
    requires forall i :: i in ids ==> i < |rows|
    ensures Descends(rows, ids, NewestFirst(rows, ids)) && |NewestFirst(rows, ids)| == |ids|
    decreases |ids|
  {
    if ids != {} {
      FirstIsNewest(rows, ids);
      var out := NewestFirst(rows, ids);
      NewestFirstSorts(rows, ids - {out[0]});
      DescendsFrom(rows, ids, out[0], out[1..]);
      assert out == [out[0]] + out[1..];
    }
  }

  lemma FirstIsNewest(rows: Rows, ids: set<nat>)
    requires forall i :: i in ids ==> i < |rows|
    requires ids != {}
    ensures NewestFirst(rows, ids) != []
    ensures var all := NewestFirst(rows, ids);
      && all[0] in ids && all[1..] == NewestFirst(rows, ids - {all[0]})
      && forall i :: i in ids && i != all[0] ==> KeyLess(KeyOf(rows, i), KeyOf(rows, all[0]))
  {
    NewestIs(rows, ids, |rows|);
    var all := NewestFirst(rows, ids);
    assert all[0] == Newest(rows, ids, |rows|).value;
  }

  lemma BelowSkipsNewer(rows: Rows, ids: set<nat>, first: nat, i: nat)
    requires forall i :: i in ids ==> i < |rows|
    requires first in ids && i in ids && KeyLess(KeyOf(rows, i), KeyOf(rows, first))
    ensures Below(rows, ids, Some(KeyOf(rows, i))) == Below(rows, ids - {first}, Some(KeyOf(rows, i)))
  {
  }

  lemma BelowNewest(rows: Rows, ids: set<nat>, first: nat)
    requires forall i :: i in ids ==> i < |rows|
    requires first in ids && forall i :: i in ids && i != first ==> KeyLess(KeyOf(rows, i), KeyOf(rows, first))
    ensures Below(rows, ids, Some(KeyOf(rows, first))) == ids - {first}
  {
  }

  /** What a page leaves behind it is what its cursor selects. */
  lemma {:induction false} CursorSelectsRest(rows: Rows, ids: set<nat>, k: nat)
    requires forall i :: i in ids ==> i < |rows|
    requires k < |NewestFirst(rows, ids)|
    ensures var all := NewestFirst(rows, ids);
      && all[k] in ids
      && NewestFirst(rows, Below(rows, ids, Some(KeyOf(rows, all[k])))) == all[k + 1..]
    decreases k
  {
    var all := NewestFirst(rows, ids);
    FirstIsNewest(rows, ids);
    if k == 0 {
      BelowNewest(rows, ids, all[0]);
    } else {
      var rest := all[1..];
      CursorSelectsRest(rows, ids - {all[0]}, k - 1);
      assert all[k] == rest[k - 1] && rest[k..] == all[k + 1..];
      BelowSkipsNewer(rows, ids, all[0], all[k]);
    }
  }

  /** A row's place in the listing depends only on the keys. */
  lemma {:induction false} OrderIsByKeys(rows: Rows, rows': Rows, ids: set<nat>)
    requires forall i :: i in ids ==> i < |rows| && i < |rows'| && rows'[i].createdAt == rows[i].createdAt
    ensures NewestFirst(rows', ids) == NewestFirst(rows, ids)
    decreases |ids|
  {
    if ids != {} {
      NewestIs(rows, ids, |rows|);
      NewestIs(rows', ids, |rows'|);
      var a, b := Newest(rows, ids, |rows|).value, Newest(rows', ids, |rows'|).value;
      assert a != b ==> KeyLess(KeyOf(rows, b), KeyOf(rows, a));
      OrderIsByKeys(rows, rows', ids - {a});
    }
  }

  // ----- one page -----

  const DEFAULT_LIMIT := 50
  const MAX_LIMIT := 200

  /** `list` clamps its limit to 1..200. */
  function Clamped(limit: Option<int>): (n: nat)
    ensures 1 <= n <= 200
    ensures limit.None? ==> n == 50
    ensures limit.Some? ==> (n == limit.value || (limit.value < 1 && n == 1) || (limit.value > 200 && n == 200))
  {
    var wanted := if limit.Some? then limit.value else DEFAULT_LIMIT;
    if wanted < 1 then 1 else if wanted > MAX_LIMIT then MAX_LIMIT else wanted
  }

  /** The official route refuses any other limit. */
  predicate Accepted(limit: Option<int>) {
    limit.Some? ==> 1 <= limit.value <= MAX_LIMIT
  }

  /** What one fetch of a walk sees, and the page size it asks for. */
  datatype View = View(rows: Rows, sessions: Sessions, limit: Option<int>)

  function Take<T>(xs: seq<T>, n: nat): seq<T> {
    if |xs| <= n then xs else xs[..n]
  }

  function Keys(rows: Rows, ids: seq<nat>): (keys: seq<Key>)
    requires forall j :: 0 <= j < |ids| ==> ids[j] < |rows|
    ensures |keys| == |ids| && forall j :: 0 <= j < |ids| ==> keys[j] == KeyOf(rows, ids[j])
  {
    seq(|ids|, j requires 0 <= j < |ids| => KeyOf(rows, ids[j]))
  }

  /** The rows of `view` that are listed from a cursor on, newest first, by their keys. */
  function Listed(view: View, env: Option<string>, after: Option<Key>): seq<Key> {
    Keys(view.rows, NewestFirst(view.rows, Below(view.rows, Matching(view.rows, view.sessions, env), after)))
  }

  function List(view: View, env: Option<string>, after: Option<Key>): seq<Key> {
    Take(Listed(view, env, after), Clamped(view.limit))
  }

  /** What the route makes of the items it is given when it asks for `limit + 1`. */
  function Published(items: seq<Key>, limit: nat): (seq<Key>, Option<Key>)
    requires limit > 0
  {
    if |items| > limit then (items[..limit], Some(items[limit - 1])) else (items, None)
  }

  lemma TakeIsSlice<T>(xs: seq<T>, p: nat, n: nat)
    requires p <= |xs|
    ensures Take(xs[p..], n) == xs[p..if p + n < |xs| then p + n else |xs|]
  {
  }

  /** The official list route. */
  function RoutePage(view: View, env: Option<string>, after: Option<Key>): (seq<Key>, Option<Key>)
    requires Accepted(view.limit)
  {
    var limit := Clamped(view.limit);
    Published(List(view.(limit := Some(limit + 1)), env, after), limit)
  }

  /** What a page leaves behind it is what its last key selects. */
  lemma CursorListsRest(view: View, env: Option<string>, after: Option<Key>, k: nat)
    requires k < |Listed(view, env, after)|
    ensures Listed(view, env, Some(Listed(view, env, after)[k])) == Listed(view, env, after)[k + 1..]
  {
    var ids := Matching(view.rows, view.sessions, env);
    var left := Below(view.rows, ids, after);
    CursorSelectsRest(view.rows, left, k);
    var key := Some(KeyOf(view.rows, NewestFirst(view.rows, left)[k]));
    assert Below(view.rows, ids, key) == Below(view.rows, left, key);
  }

  /** A page ends the walk with rows remaining exactly when its limit is 200 and more than 200
      remain: the route asks for 201 rows and is given 200. */
  lemma PageEndsEarlyOnlyAt200(view: View, env: Option<string>, after: Option<Key>)
    requires Accepted(view.limit)
    ensures var all, limit := Listed(view, env, after), Clamped(view.limit);
      (RoutePage(view, env, after).1.None? && |all| > limit) <==> (limit == MAX_LIMIT && |all| > MAX_LIMIT)
  {
    RoutePageIs(view, env, after);
  }

  lemma RoutePageIs(view: View, env: Option<string>, after: Option<Key>)
    requires Accepted(view.limit)
    ensures var all, limit := Listed(view, env, after), Clamped(view.limit);
      RoutePage(view, env, after) == Published(Take(all, Clamped(Some(limit + 1))), limit)
  {
  }

  // ----- rows enqueued between fetches -----

  predicate Listable(view: View, env: Option<string>, i: nat)
    requires i < |view.rows|
  {
    Given(env) ==> InEnvironment(view.sessions, view.rows[i], env.value)
  }

  /** Between two fetches rows may change in any way but their keys and environments, and
      rows with larger keys may be enqueued. */
  ghost predicate Grown(base: View, view: View, env: Option<string>) {
    && |base.rows| <= |view.rows|
    && (forall i: nat :: i < |base.rows| ==>
          && view.rows[i].createdAt == base.rows[i].createdAt
          && (Listable(view, env, i) <==> Listable(base, env, i)))
    && (forall i: nat, j: nat :: i < |base.rows| <= j < |view.rows| ==>
          base.rows[i].createdAt <= view.rows[j].createdAt)
  }

  ghost predicate AllGrown(views: seq<View>, env: Option<string>) {
    forall k :: 0 <= k < |views| ==> Grown(views[0], views[k], env)
  }

  /** Rows with larger keys never appear below a cursor. */
  lemma GrowthIsAboveCursor(base: View, view: View, env: Option<string>, i: nat)
    requires Grown(base, view, env) && i < |base.rows|
    ensures Listed(view, env, Some(KeyOf(base.rows, i))) == Listed(base, env, Some(KeyOf(base.rows, i)))
  {
    var key := Some(KeyOf(base.rows, i));
    var ids := Below(base.rows, Matching(base.rows, base.sessions, env), key);
    forall j: nat ensures j in Below(view.rows, Matching(view.rows, view.sessions, env), key) <==> j in ids {
      assert j < |base.rows| ==> (Listable(view, env, j) <==> Listable(base, env, j));
    }
    assert Below(view.rows, Matching(view.rows, view.sessions, env), key) == ids;
    OrderIsByKeys(base.rows, view.rows, ids);
  }

  /** The cursor of a walk that has been given the first `p` rows of a listing. */
  function CursorAt(all: seq<Key>, p: nat): Option<Key>
    requires p <= |all|
  {
    if p == 0 then None else Some(all[p - 1])
  }

  /** From that cursor every later view lists what remained when the walk began. */
  lemma RestIsListed(views: seq<View>, env: Option<string>, k: nat, p: nat)
    requires AllGrown(views, env) && k < |views| && p <= |Listed(views[0], env, None)|
    requires k == 0 || p > 0
    ensures var all := Listed(views[0], env, None);
      Listed(views[k], env, CursorAt(all, p)) == all[p..]
  {
    var all := Listed(views[0], env, None);
    if p > 0 {
      CursorListsRest(views[0], env, None, p - 1);
      var base := views[0];
      var ids := NewestFirst(base.rows, Below(base.rows, Matching(base.rows, base.sessions, env), None));
      assert all[p - 1] == KeyOf(views[0].rows, ids[p - 1]) && Grown(views[0], views[k], env);
      GrowthIsAboveCursor(views[0], views[k], env, ids[p - 1]);
    }
  }

  // ----- walks, whatever is listed -----

  /** Following the key of each page's last row, from fetch `k`, until a page is empty. */
  function Follow(fetch: (nat, Option<Key>) -> seq<Key>, k: nat, n: nat, after: Option<Key>): seq<Key>
    decreases n - k
  {
    if k >= n then []
    else
      var page := fetch(k, after);
      if page == [] then [] else page + Follow(fetch, k + 1, n, Some(page[|page| - 1]))
  }

  /** Following published cursors, from fetch `k`, until a page publishes none. */
  function FollowPublished(fetch: (nat, Option<Key>) -> (seq<Key>, Option<Key>), k: nat, n: nat, after: Option<Key>)
    : seq<Key>
    decreases n - k
  {
    if k >= n then []
    else
      var (page, next) := fetch(k, after);
      if next.Some? then page + FollowPublished(fetch, k + 1, n, next) else page
  }

  function Sum(limits: seq<nat>, k: nat): nat
    decreases |limits| - k
  {
    if k >= |limits| then 0 else limits[k] + Sum(limits, k + 1)
  }

  function Least(a: nat, b: nat): nat {
    if a < b then a else b
  }

  /** Each fetch sees what remains of `all` and returns at most its limit. */
  ghost predicate Sees(fetch: (nat, Option<Key>) -> seq<Key>, all: seq<Key>, limits: seq<nat>) {
    forall k: nat, p: nat :: k < |limits| && p <= |all| && (k == 0 || p > 0) ==> SeesAt(fetch, all, limits, k, p)
  }

  ghost predicate SeesAt(fetch: (nat, Option<Key>) -> seq<Key>, all: seq<Key>, limits: seq<nat>, k: nat, p: nat)
    requires k < |limits| && p <= |all|
  {
    limits[k] > 0 && fetch(k, CursorAt(all, p)) == all[p..Least(p + limits[k], |all|)]
  }

  /** How many rows a walk has been given in the end. */
  function End(limits: seq<nat>, total: nat, k: nat, p: nat): nat
    decreases |limits| - k
  {
    if k >= |limits| || p >= total then p else End(limits, total, k + 1, Least(p + limits[k], total))
  }

  lemma {:induction false} EndIsSum(limits: seq<nat>, total: nat, k: nat, p: nat)
    requires p <= total
    ensures End(limits, total, k, p) == Least(p + Sum(limits, k), total)
    decreases |limits| - k
  {
    if k < |limits| && p < total { EndIsSum(limits, total, k + 1, Least(p + limits[k], total)); }
  }

  lemma FollowOne(fetch: (nat, Option<Key>) -> seq<Key>, all: seq<Key>, limits: seq<nat>, k: nat, p: nat)
    requires k < |limits| && p < |all| && SeesAt(fetch, all, limits, k, p)
    ensures var q := Least(p + limits[k], |all|);
      Follow(fetch, k, |limits|, CursorAt(all, p)) == all[p..q] + Follow(fetch, k + 1, |limits|, CursorAt(all, q))
  {
    var q := Least(p + limits[k], |all|);
    var page := fetch(k, CursorAt(all, p));
    assert page == all[p..q] && page[|page| - 1] == all[q - 1];
  }

  lemma SliceJoins<T>(all: seq<T>, p: nat, q: nat, e: nat)
    requires p <= q <= e <= |all|
    ensures all[p..q] + all[q..e] == all[p..e]
  {
  }

  lemma {:induction false} FollowIsSlice(fetch: (nat, Option<Key>) -> seq<Key>, all: seq<Key>, limits: seq<nat>,
                                         k: nat, p: nat)
    requires Sees(fetch, all, limits) && k <= |limits| && p <= |all| && (k == 0 || p > 0)
    ensures p <= End(limits, |all|, k, p) <= |all|
    ensures Follow(fetch, k, |limits|, CursorAt(all, p)) == all[p..End(limits, |all|, k, p)]
    decreases |limits| - k
  {
    if k < |limits| {
      assert SeesAt(fetch, all, limits, k, p);
      if p < |all| {
        var q := Least(p + limits[k], |all|);
        FollowOne(fetch, all, limits, k, p);
        FollowIsSlice(fetch, all, limits, k + 1, q);
        SliceJoins(all, p, q, End(limits, |all|, k, p));
      }
    }
  }

  lemma FollowFrom(fetch: (nat, Option<Key>) -> seq<Key>, all: seq<Key>, limits: seq<nat>, p: nat)
    requires Sees(fetch, all, limits) && p <= |all|
    ensures Follow(fetch, 0, |limits|, CursorAt(all, p)) == Take(all[p..], Sum(limits, 0))
  {
    FollowIsSlice(fetch, all, limits, 0, p);
    EndIsSum(limits, |all|, 0, p);
    TakeIsSlice(all, p, Sum(limits, 0));
  }

  /** The same for pages of the route, which asks for one row more. */
  ghost predicate SeesPublished(fetch: (nat, Option<Key>) -> (seq<Key>, Option<Key>), all: seq<Key>,
                                limits: seq<nat>)
  {
    forall k: nat, p: nat :: k < |limits| && p <= |all| && (k == 0 || p > 0) ==>
      SeesPublishedAt(fetch, all, limits, k, p)
  }

  ghost predicate SeesPublishedAt(fetch: (nat, Option<Key>) -> (seq<Key>, Option<Key>), all: seq<Key>,
                                  limits: seq<nat>, k: nat, p: nat)
    requires k < |limits| && p <= |all|
  {
    && 1 <= limits[k] <= MAX_LIMIT
    && fetch(k, CursorAt(all, p)) == Published(all[p..Least(p + Clamped(Some(limits[k] + 1)), |all|)], limits[k])
  }

  function RouteEnd(limits: seq<nat>, total: nat, k: nat, p: nat): nat
    decreases |limits| - k
  {
    if k >= |limits| then p
    else if p + limits[k] < total && limits[k] < MAX_LIMIT then RouteEnd(limits, total, k + 1, p + limits[k])
    else Least(p + limits[k], total)
  }

  /** Of `remaining` rows, fetch `k` or a later one, but not the last, is of 200 rows and meets
      more than 200. */
  predicate CutShort(remaining: int, limits: seq<nat>, k: nat)
    decreases |limits| - k
  {
    && k + 1 < |limits| && remaining > limits[k]
    && (limits[k] == MAX_LIMIT || CutShort(remaining - limits[k], limits, k + 1))
  }

  lemma {:induction false} RouteEndIsSum(limits: seq<nat>, total: nat, k: nat, p: nat)
    requires p <= total && forall i :: 0 <= i < |limits| ==> 1 <= limits[i] <= MAX_LIMIT
    ensures RouteEnd(limits, total, k, p) == Least(p + Sum(limits, k), total) <==> !CutShort(total - p, limits, k)
    decreases |limits| - k
  {
    if k < |limits| {
      assert k + 1 < |limits| ==> Sum(limits, k + 1) > 0;
      if p + limits[k] < total && limits[k] < MAX_LIMIT { RouteEndIsSum(limits, total, k + 1, p + limits[k]); }
    }
  }

  lemma PublishedOne(fetch: (nat, Option<Key>) -> (seq<Key>, Option<Key>), all: seq<Key>, limits: seq<nat>,
                     k: nat, p: nat)
    requires k < |limits| && p <= |all| && SeesPublishedAt(fetch, all, limits, k, p)
    ensures var q, walk := p + limits[k], FollowPublished(fetch, k, |limits|, CursorAt(all, p));
      if q < |all| && limits[k] < MAX_LIMIT
      then walk == all[p..q] + FollowPublished(fetch, k + 1, |limits|, CursorAt(all, q))
      else walk == all[p..Least(q, |all|)]
  {
    var q := p + limits[k];
    var items := all[p..Least(p + Clamped(Some(limits[k] + 1)), |all|)];
    assert fetch(k, CursorAt(all, p)) == Published(items, limits[k]);
    if q < |all| && limits[k] < MAX_LIMIT {
      assert items[..limits[k]] == all[p..q] && items[limits[k] - 1] == all[q - 1];
    }
  }

  lemma {:induction false} FollowPublishedIsSlice(fetch: (nat, Option<Key>) -> (seq<Key>, Option<Key>),
                                                  all: seq<Key>, limits: seq<nat>, k: nat, p: nat)
    requires SeesPublished(fetch, all, limits) && k <= |limits| && p <= |all| && (k == 0 || p > 0)
    ensures p <= RouteEnd(limits, |all|, k, p) <= |all|
    ensures FollowPublished(fetch, k, |limits|, CursorAt(all, p)) == all[p..RouteEnd(limits, |all|, k, p)]
    decreases |limits| - k
  {
    if k < |limits| {
      assert SeesPublishedAt(fetch, all, limits, k, p);
      PublishedOne(fetch, all, limits, k, p);
      var q := p + limits[k];
      if q < |all| && limits[k] < MAX_LIMIT {
        FollowPublishedIsSlice(fetch, all, limits, k + 1, q);
        SliceJoins(all, p, q, RouteEnd(limits, |all|, k, p));
      }
    }
  }

  lemma FollowPublishedFromStart(fetch: (nat, Option<Key>) -> (seq<Key>, Option<Key>), all: seq<Key>,
                                 limits: seq<nat>)
    requires SeesPublished(fetch, all, limits) && forall i :: 0 <= i < |limits| ==> 1 <= limits[i] <= MAX_LIMIT
    ensures FollowPublished(fetch, 0, |limits|, None) == Take(all, Sum(limits, 0)) <==> !CutShort(|all|, limits, 0)
  {
    FollowPublishedIsSlice(fetch, all, limits, 0, 0);
    RouteEndIsSum(limits, |all|, 0, 0);
    var e := RouteEnd(limits, |all|, 0, 0);
    assert |all[0..e]| == e && |Take(all, Sum(limits, 0))| == Least(Sum(limits, 0), |all|);
  }

  // ----- walks of the queue and of the route -----

  function Limits(views: seq<View>): (limits: seq<nat>)
    ensures |limits| == |views| && forall k :: 0 <= k < |views| ==> limits[k] == Clamped(views[k].limit)
  {
    seq(|views|, k requires 0 <= k < |views| => Clamped(views[k].limit))
  }

  function ListFetch(views: seq<View>, env: Option<string>): (nat, Option<Key>) -> seq<Key> {
    (k: nat, after) => if k < |views| then List(views[k], env, after) else []
  }

  function ListWalk(views: seq<View>, env: Option<string>, after: Option<Key>): seq<Key> {
    Follow(ListFetch(views, env), 0, |views|, after)
  }

  lemma PageIsSlice(view: View, env: Option<string>, after: Option<Key>, all: seq<Key>, p: nat)
    requires p <= |all| && Listed(view, env, after) == all[p..]
    ensures List(view, env, after) == all[p..Least(p + Clamped(view.limit), |all|)]
  {
    TakeIsSlice(all, p, Clamped(view.limit));
  }

  lemma ListSeesAt(views: seq<View>, env: Option<string>, all: seq<Key>, k: nat, p: nat)
    requires k < |views| && p <= |all| && Listed(views[k], env, CursorAt(all, p)) == all[p..]
    ensures SeesAt(ListFetch(views, env), all, Limits(views), k, p)
  {
    PageIsSlice(views[k], env, CursorAt(all, p), all, p);
  }

  lemma ListSees(views: seq<View>, env: Option<string>, all: seq<Key>)
    requires views != [] && AllGrown(views, env) && all == Listed(views[0], env, None)
    ensures Sees(ListFetch(views, env), all, Limits(views))
  {
    forall k: nat, p: nat | k < |views| && p <= |all| && (k == 0 || p > 0)
      ensures SeesAt(ListFetch(views, env), all, Limits(views), k, p)
    {
      RestIsListed(views, env, k, p);
      ListSeesAt(views, env, all, k, p);
    }
  }

  /** For any page sizes, also absent or out of range, with or without an environment, following
      `list` cursors, from the start or from any row of the listing, gives the rows that were
      there when the walk began, newest first, as many as its page sizes add up to: no row is
      skipped or repeated, whatever is enqueued in between. */
  lemma ListingVisitsEveryRow(views: seq<View>, env: Option<string>, p: nat)
    requires views != [] && AllGrown(views, env) && p <= |Listed(views[0], env, None)|
    ensures var all := Listed(views[0], env, None);
      ListWalk(views, env, CursorAt(all, p)) == Take(all[p..], Sum(Limits(views), 0))
  {
    var all := Listed(views[0], env, None);
    ListSees(views, env, all);
    FollowFrom(ListFetch(views, env), all, Limits(views), p);
  }

  /** Followed to its end, it gives every row that was there, each once, newest first. */
  lemma WholeListing(views: seq<View>, env: Option<string>)
    requires views != [] && AllGrown(views, env)
    requires Sum(Limits(views), 0) >= |Matching(views[0].rows, views[0].sessions, env)|
    ensures var base := views[0];
      exists ids :: Descends(base.rows, Matching(base.rows, base.sessions, env), ids)
                    && ListWalk(views, env, None) == Keys(base.rows, ids)
  {
    ListingVisitsEveryRow(views, env, 0);
    var base := views[0];
    var ids := Matching(base.rows, base.sessions, env);
    assert Below(base.rows, ids, None) == ids;
    NewestFirstSorts(base.rows, ids);
  }

  predicate AllAccepted(views: seq<View>) {
    forall k :: 0 <= k < |views| ==> Accepted(views[k].limit)
  }

  function RouteFetch(views: seq<View>, env: Option<string>): (nat, Option<Key>) -> (seq<Key>, Option<Key>) {
    (k: nat, after) => if k < |views| && Accepted(views[k].limit) then RoutePage(views[k], env, after) else ([], None)
  }

  function RouteWalk(views: seq<View>, env: Option<string>): seq<Key>
    requires AllAccepted(views)
  {
    FollowPublished(RouteFetch(views, env), 0, |views|, None)
  }

  lemma RouteSeesAt(views: seq<View>, env: Option<string>, all: seq<Key>, k: nat, p: nat)
    requires k < |views| && Accepted(views[k].limit)
    requires p <= |all| && Listed(views[k], env, CursorAt(all, p)) == all[p..]
    ensures SeesPublishedAt(RouteFetch(views, env), all, Limits(views), k, p)
  {
    RoutePageIs(views[k], env, CursorAt(all, p));
    TakeIsSlice(all, p, Clamped(Some(Clamped(views[k].limit) + 1)));
  }

  lemma RouteSees(views: seq<View>, env: Option<string>, all: seq<Key>)
    requires views != [] && AllGrown(views, env) && AllAccepted(views) && all == Listed(views[0], env, None)
    ensures SeesPublished(RouteFetch(views, env), all, Limits(views))
  {
    forall k: nat, p: nat | k < |views| && p <= |all| && (k == 0 || p > 0)
      ensures SeesPublishedAt(RouteFetch(views, env), all, Limits(views), k, p)
    {
      RestIsListed(views, env, k, p);
      RouteSeesAt(views, env, all, k, p);
    }
  }

  /** The route's walk loses rows if and only if some 200-row page that is not the last one
      fetched meets more than 200 remaining rows. */
  lemma RouteLosesRowsOnlyAt200(views: seq<View>, env: Option<string>)
    requires views != [] && AllGrown(views, env) && AllAccepted(views)
    ensures RouteWalk(views, env) == Take(Listed(views[0], env, None), Sum(Limits(views), 0))
            <==> !CutShort(|Listed(views[0], env, None)|, Limits(views), 0)
  {
    var all := Listed(views[0], env, None);
    RouteSees(views, env, all);
    FollowPublishedFromStart(RouteFetch(views, env), all, Limits(views));
  }

  function Uniform(session: Session, n: nat): View {
    View(seq(n, _ => NewRow(map["s" := session], "s", 0)), map["s" := session], Some(200))
  }

  lemma AllListed(session: Session, n: nat)
    ensures |Listed(Uniform(session, n), Some(session.environment), None)| == n
  {
    var view := Uniform(session, n);
    assert Below(view.rows, Matching(view.rows, view.sessions, Some(session.environment)), None) == UpTo(n);
    NewestFirstSorts(view.rows, UpTo(n));
  }

  /** For instance: of 201 rows of one session, fetched 200 at a time, one is never given. */
  lemma TwoHundredAndOneRows(session: Session)
    ensures var view, env := Uniform(session, 201), Some(session.environment);
      && |Listed(view, env, None)| == 201
      && RouteWalk([view, view], env) != Listed(view, env, None)
  {
    var view, env := Uniform(session, 201), Some(session.environment);
    AllListed(session, 201);
    RouteLosesRowsOnlyAt200([view, view], env);
    assert Limits([view, view]) == [200, 200];
    assert Sum([200, 200], 0) == 200 + Sum([200, 200], 1) && Sum([200, 200], 1) == 200 + Sum([200, 200], 2);
  }

  function UpTo(n: nat): (ids: set<nat>)
    ensures |ids| == n && forall i: nat :: i in ids <==> i < n
  {
    if n == 0 then {} else UpTo(n - 1) + {n - 1}
  }

  /** The listing holds the key of each row there is, or, when an environment is named, of each row whose
      session exists and belongs to it; whatever the row's status. */
  lemma ListedAre(view: View, env: Option<string>, key: Key)
    ensures key in Listed(view, env, None) <==>
            && key.rowId < |view.rows| && key.createdAt == view.rows[key.rowId].createdAt
            && (env.None? || env.value == ""
                || (var id := view.rows[key.rowId].session;
                    id in view.sessions && view.sessions[id].environment == env.value))
  {
    var ids := Matching(view.rows, view.sessions, env);
    assert Below(view.rows, ids, None) == ids;
    NewestFirstSorts(view.rows, ids);
    var order := NewestFirst(view.rows, ids);
    if key in Listed(view, env, None) {
      var j :| 0 <= j < |order| && KeyOf(view.rows, order[j]) == key;
    }
    if key.rowId in ids {
      var j :| 0 <= j < |order| && order[j] == key.rowId;
      assert Keys(view.rows, order)[j] == KeyOf(view.rows, key.rowId);
    }
  }
}
