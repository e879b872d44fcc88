/** Many passes: however they end, an ordinary path goes through its own events only; and passes
    after no changes do nothing. */
module MemoryRuns {
  import opened Wrappers
  import opened MemoryPaths
  import opened MemoryPass
  import opened MemoryEvents

  // ----- a path over many passes -----

  /** A path that the pass treats on its own and can show. */
  ghost predicate Ordinary(dir: File, s: Sync, t: Turn, p: Path) {
    Shown(dir, s, p) && Alone(dir, s, p) && !HasTwin(dir, s, t, p)
  }

  /** At an ordinary path a whole pass is `AfterPass`. */
  lemma PassProjects(dir: File, writable: bool, s: Sync, s': Sync, t: Turn, p: Path)
    requires Passed(dir, writable, s, s', t) && Ordinary(dir, s, t, p)
    ensures VersionsAt(dir, s', p) == AfterPass(VersionsAt(dir, s, p), writable && p !in t.refuse)
  {
    FileReachesMerge(dir, writable, s, s', t, p);
    StoreProjects(dir, writable, s, s', t, p);
  }

  lemma StoreProjects(dir: File, writable: bool, s: Sync, s': Sync, t: Turn, p: Path)
    requires Passed(dir, writable, s, s', t) && Shown(dir, s, p) && !HasTwin(dir, s, t, p)
    ensures ContentAt(s'.store, p) ==
            if writable && p !in t.refuse then VersionsAt(dir, s', p).local else ContentAt(s.store, p)
    ensures ContentAt(s'.known, p) == ContentAt(s'.store, p)
  {
    if writable {
      if p in t.refuse { RefusedStays(dir, s, s', t, p); } else { StoreFollowsDisk(dir, s, s', t, p); }
    }
  }

  // ----- passes that throw -----

  lemma PullLeavesFile(dir: File, s: Sync, s': Sync, order: seq<Path>, f: File)
    requires PulledUpTo(dir, s, s', order, |order|, {})
    ensures FileAt(s'.disk, f) == PulledFile(dir, s, order, f)
  {
    assert order[..|order|] == order;
    assert GoneSince(dir, s.known, {}, s.store, f) <==> Gone(dir, s.known, s.store, f);
  }

  /** Wherever a pull throws, the file of a path that is alone on it holds what it held, or the merge;
      and then the baseline is what the store holds. */
  lemma PullProjects(dir: File, s: Sync, s': Sync, order: seq<Path>, k: nat, left: set<Path>, p: Path)
    requires Listing(order, s.store) && PulledUpTo(dir, s, s', order, k, left) && Alone(dir, s, p)
    ensures var v, pulled := VersionsAt(dir, s, p), p in order[..k] || (p !in s.store && p !in left);
      && VersionsAt(dir, s', p).local == (if pulled then Merge(v) else v.local)
      && ContentAt(s'.known, p) == (if pulled then v.remote else v.base)
  {
    var target := Target(dir, p);
    assert forall q :: q in order[..k] ==> q in order;
    if target.Some? {
      var f := target.value;
      FileAfterAlone(dir, s, order[..k], p, f, FileAt(s.disk, f));
      assert GoneSince(dir, s.known, left, s.store, f) <==> p in s.known && p !in left && p !in s.store;
    }
  }

  /** Before the push throws, the path's own request has been sent if its file came before. */
  lemma PushProjects(dir: File, s: Sync, s': Sync, t: Turn, k: nat, p: Path)
    requires Listing(t.order, s.store) && PushedUpTo(dir, s, s', t, k) && Ordinary(dir, s, t, p)
    ensures var v := VersionsAt(dir, s, p);
      ContentAt(s'.store, p) ==
      if Target(dir, p).value in t.files[..k] && p !in t.refuse then Merge(v) else v.remote
  {
    var f, done := Target(dir, p).value, t.files[..k];
    assert t.order[..|t.order|] == t.order;
    PullProjects(dir, s, s', t.order, |t.order|, {}, p);
    if p in s.store {
      forall g | g in done && PathOf(g) == p ensures g == f {
        assert g in t.files;
        TargetOfPath(dir, g);
      }
    } else {
      UploadCreates(dir, s, s', t, k, p);
    }
  }

  lemma UploadCreates(dir: File, s: Sync, s': Sync, t: Turn, k: nat, p: Path)
    requires PushedUpTo(dir, s, s', t, k) && Ordinary(dir, s, t, p) && p !in s.store
    ensures ContentAt(s'.store, p) ==
            if Target(dir, p).value in t.files[..k] && p !in t.refuse then FileAt(s'.disk, Target(dir, p).value)
            else None
  {
    var f, done := Target(dir, p).value, t.files[..k];
    var found := FirstCreated(done, s.store, t.refuse, p);
    if found.Some? {
      var g := found.value;
      assert g in t.files;
      PullLeavesFile(dir, s, s', t.order, g);
      assert !TwinFile(dir, s, t, g, p);
      assert Target(dir, PathOf(g)).Some?;
      TargetOfPath(dir, g);
    }
  }

  datatype Move = LocalEdits | StoreEdits | ReconcilePass(turn: Turn, end: End)

  /** One thing that happens to disk, store and baseline. */
  ghost predicate Moved(dir: File, writable: bool, s: Sync, m: Move, s': Sync) {
    match m
    case LocalEdits => s'.known == s.known && s'.store == s.store
    case StoreEdits => s' == s.(store := s'.store)
    case ReconcilePass(t, end) => Ended(dir, writable, s, s', t, end)
  }

  /** What a pass is for one path, by how far it has got. */
  function PassAt(dir: File, writable: bool, s: Sync, t: Turn, end: End, p: Path): Event {
    var accepted := writable && p !in t.refuse;
    match end
    case ListThrew => ThrownPass(false, false)
    case PullThrew(k, left) =>
      ThrownPass(k <= |t.order| && (p in t.order[..k] || (p !in s.store && p !in left)), false)
    case PushThrew(k) =>
      var f := Target(dir, p);
      ThrownPass(true, accepted && f.Some? && k <= |t.files| && f.value in t.files[..k])
    case RelistThrew => ThrownPass(true, accepted)
    case Done => Pass(accepted)
  }

  /** The path is one that a pass ending like this treats on its own. */
  ghost predicate OnItsOwn(dir: File, s: Sync, t: Turn, end: End, p: Path) {
    match end
    case ListThrew => true
    case PullThrew(_, _) => Alone(dir, s, p)
    case _ => Ordinary(dir, s, t, p)
  }

  lemma PushThrowProjects(dir: File, writable: bool, s: Sync, s': Sync, t: Turn, k: nat, p: Path)
    requires Ended(dir, writable, s, s', t, PushThrew(k)) && Ordinary(dir, s, t, p)
    ensures VersionsAt(dir, s', p) == AfterEvent(VersionsAt(dir, s, p), PassAt(dir, writable, s, t, PushThrew(k), p))
  {
    assert t.order[..|t.order|] == t.order;
    PushProjects(dir, s, s', t, k, p);
    PullProjects(dir, s, s', t.order, |t.order|, {}, p);
  }

  lemma RelistThrowProjects(dir: File, writable: bool, s: Sync, s': Sync, t: Turn, p: Path)
    requires Ended(dir, writable, s, s', t, RelistThrew) && Ordinary(dir, s, t, p)
    ensures VersionsAt(dir, s', p) == AfterEvent(VersionsAt(dir, s, p), PassAt(dir, writable, s, t, RelistThrew, p))
  {
    PassProjects(dir, writable, s, s'.(known := s'.store), t, p);
  }

  /** However a pass ends, for such a path it is one event. */
  lemma EndProjects(dir: File, writable: bool, s: Sync, s': Sync, t: Turn, end: End, p: Path)
    requires Ended(dir, writable, s, s', t, end) && OnItsOwn(dir, s, t, end, p)
    ensures VersionsAt(dir, s', p) == AfterEvent(VersionsAt(dir, s, p), PassAt(dir, writable, s, t, end, p))
  {
    match end
    case ListThrew =>
    case PullThrew(k, left) => PullProjects(dir, s, s', t.order, k, left, p);
    case PushThrew(k) => PushThrowProjects(dir, writable, s, s', t, k, p);
    case RelistThrew => RelistThrowProjects(dir, writable, s, s', t, p);
    case Done => PassProjects(dir, writable, s, s', t, p);
  }

  // ----- whole runs -----

  /** What a move is for one path: one event, or none when an edit or another writer leaves it alone. */
  function EventsOf(dir: File, writable: bool, s: Sync, m: Move, s': Sync, p: Path): seq<Event> {
    var v, v' := VersionsAt(dir, s, p), VersionsAt(dir, s', p);
    match m
    case LocalEdits => if v'.local == v.local then [] else [EditLocal(v'.local)]
    case StoreEdits => if v'.remote == v.remote then [] else [EditRemote(v'.remote)]
    case ReconcilePass(t, end) => [PassAt(dir, writable, s, t, end, p)]
  }

  function EventsAt(dir: File, writable: bool, states: seq<Sync>, moves: seq<Move>, p: Path): seq<Event>
    requires |states| == |moves| + 1
  {
    if moves == [] then []
    else
      var n := |moves| - 1;
      EventsAt(dir, writable, states[..n + 1], moves[..n], p)
      + EventsOf(dir, writable, states[n], moves[n], states[n + 1], p)
  }

  ghost predicate OrdinaryRun(dir: File, writable: bool, states: seq<Sync>, moves: seq<Move>, p: Path) {
    && |states| == |moves| + 1
    && forall i :: 0 <= i < |moves| ==>
         && Moved(dir, writable, states[i], moves[i], states[i + 1])
         && (moves[i].ReconcilePass? ==> OnItsOwn(dir, states[i], moves[i].turn, moves[i].end, p))
  }

  lemma MoveProjects(dir: File, writable: bool, s: Sync, m: Move, s': Sync, p: Path)
    requires Moved(dir, writable, s, m, s') && (m.ReconcilePass? ==> OnItsOwn(dir, s, m.turn, m.end, p))
    ensures VersionsAt(dir, s', p) == AfterEvents(VersionsAt(dir, s, p), EventsOf(dir, writable, s, m, s', p))
  {
    if m.ReconcilePass? { EndProjects(dir, writable, s, s', m.turn, m.end, p); }
  }

  lemma AfterOneMore(v: Versions, events: seq<Event>, more: seq<Event>)
    requires |more| <= 1
    ensures AfterEvents(v, events + more) == AfterEvents(AfterEvents(v, events), more)
  {
    if more == [] {
      assert events + more == events;
    } else {
      assert (events + more)[..|events|] == events && more[..0] == [];
    }
  }

  /** Over any run of passes that end or throw anywhere, and of edits and other writers' changes
      between them, an ordinary path goes through exactly the events of its own. */
  lemma {:induction false} RunProjects(dir: File, writable: bool, states: seq<Sync>, moves: seq<Move>, p: Path)
    requires OrdinaryRun(dir, writable, states, moves, p)
    ensures VersionsAt(dir, states[|moves|], p)
         == AfterEvents(VersionsAt(dir, states[0], p), EventsAt(dir, writable, states, moves, p))
    decreases |moves|
  {
    if moves != [] {
      var n := |moves| - 1;
      assert forall k :: 0 <= k <= n ==> states[..n + 1][k] == states[k];
      RunProjects(dir, writable, states[..n + 1], moves[..n], p);
      assert Moved(dir, writable, states[n], moves[n], states[n + 1]);
      MoveProjects(dir, writable, states[n], moves[n], states[n + 1], p);
      AfterOneMore(VersionsAt(dir, states[0], p), EventsAt(dir, writable, states[..n + 1], moves[..n], p),
                   EventsOf(dir, writable, states[n], moves[n], states[n + 1], p));
    }
  }

  /** So over any such run in which nobody else writes the path, the agent's last edit is still in the
      file if and only if no pass since has lost it: none that pulled when a record's file had been
      deleted, or had been edited after the last one that pulled had thrown after uploading. */
  lemma LastEditOfRunSurvives(dir: File, writable: bool, states: seq<Sync>, moves: seq<Move>, p: Path)
    requires OrdinaryRun(dir, writable, states, moves, p) && NobodyElse(EventsAt(dir, writable, states, moves, p))
    requires var v := VersionsAt(dir, states[0], p); v.base == v.remote
    ensures var v, events := VersionsAt(dir, states[0], p), EventsAt(dir, writable, states, moves, p);
      VersionsAt(dir, states[|moves|], p).local == LastEdit(v.local, events) <==>
      forall j :: UpToLastEdit(events) <= j < |events| ==> !LosesEdit(v, events, j)
  {
    RunProjects(dir, writable, states, moves, p);
    LastEditSurvivesExactlyWhen(VersionsAt(dir, states[0], p), EventsAt(dir, writable, states, moves, p));
  }

  /** A pass throws once it has pulled a path, the agent edits the file, and the next pass pulls it
      too. The edit is still there if and only if the first pass uploaded nothing at the path, or
      the very same; otherwise the file is back at what was uploaded. */
  lemma EditAfterThrownPass(dir: File, writable: bool, s: Sync, s1: Sync, s2: Sync, s3: Sync, t: Turn, end: End,
                            t': Turn, end': End, p: Path)
    requires Ended(dir, writable, s, s1, t, end) && OnItsOwn(dir, s, t, end, p) && !end.Done?
    requires Moved(dir, writable, s1, LocalEdits, s2) && VersionsAt(dir, s2, p).local.Some?
    requires Ended(dir, writable, s2, s3, t', end') && OnItsOwn(dir, s2, t', end', p)
    requires Pulls(PassAt(dir, writable, s, t, end, p)) && Pulls(PassAt(dir, writable, s2, t', end', p))
    ensures var edit, uploaded := VersionsAt(dir, s2, p).local, ContentAt(s1.store, p);
      && (VersionsAt(dir, s3, p).local == edit <==> uploaded == ContentAt(s.store, p) || edit == uploaded)
      && (VersionsAt(dir, s3, p).local != edit ==> VersionsAt(dir, s3, p).local == uploaded)
  {
    EndProjects(dir, writable, s, s1, t, end, p);
    EndProjects(dir, writable, s2, s3, t', end', p);
    EditKept(VersionsAt(dir, s, p), VersionsAt(dir, s1, p), VersionsAt(dir, s2, p), VersionsAt(dir, s3, p),
             PassAt(dir, writable, s, t, end, p), PassAt(dir, writable, s2, t', end', p));
  }

  lemma EditKept(v: Versions, v1: Versions, v2: Versions, v3: Versions, e: Event, e': Event)
    requires e.ThrownPass? && e.pulls && v1 == AfterEvent(v, e)
    requires v2 == v1.(local := v2.local) && v2.local.Some?
    requires Pulls(e') && v3 == AfterEvent(v2, e')
    ensures v3.local == v2.local <==> v1.remote == v.remote || v2.local == v1.remote
    ensures v3.local == v2.local || v3.local == v1.remote
  {
  }

  // ----- passes after no changes -----

  /** Nothing is left to do: every record is in the baseline and in its own file, and every file
      that the listing shows is such a record's. */
  ghost predicate Quiet(dir: File, s: Sync) {
    && s.known == s.store && ValidPlace(s.disk, s.dirs)
    && (forall p :: p in s.store ==>
          Canonical(dir, p) && !IsMarkerFile(Target(dir, p).value)
          && FileAt(s.disk, Target(dir, p).value) == ContentAt(s.store, p))
    && (forall f :: f in s.disk && !IsMarkerFile(f) ==> PathOf(f) in s.store)
  }

  /** The pull then writes nothing. */
  lemma {:induction false} QuietPull(dir: File, s: Place, order: seq<Path>, remote: Records)
    requires forall p :: p in order ==> p in remote
    requires s.known == remote
    requires forall p :: p in order ==>
               Target(dir, p).Some? && FileAt(s.disk, Target(dir, p).value) == ContentAt(remote, p)
    ensures PullAll(dir, s, order, remote) == Some(s)
  {
    if order != [] {
      var p := order[|order| - 1];
      assert order == order[..|order| - 1] + [p];
      QuietPull(dir, s, order[..|order| - 1], remote);
      assert s.known[p := remote[p]] == s.known;
    }
  }

  lemma {:induction false} QuietFile(dir: File, s: Sync, order: seq<Path>, f: File)
    requires Quiet(dir, s) && forall p :: p in order ==> p in s.store
    ensures FileAfter(dir, s.known, order, s.store, f, FileAt(s.disk, f)) == FileAt(s.disk, f)
  {
    if order != [] {
      assert order == order[..|order| - 1] + [order[|order| - 1]];
      QuietFile(dir, s, order[..|order| - 1], f);
    }
  }

  /** And a pass changes no file and no record. */
  lemma QuietPassChangesNothing(dir: File, writable: bool, s: Sync, s': Sync, t: Turn)
    requires Quiet(dir, s) && Passed(dir, writable, s, s', t)
    ensures forall f :: FileAt(s'.disk, f) == FileAt(s.disk, f)
    ensures forall p :: ContentAt(s'.store, p) == ContentAt(s.store, p)
  {
    forall f ensures FileAt(s'.disk, f) == FileAt(s.disk, f) {
      QuietFile(dir, s, t.order, f);
      assert FileAt(s'.disk, f) == PulledFile(dir, s, t.order, f);
    }
    if writable {
      forall f | f in t.files ensures PathOf(f) in s.store {
        assert FileAt(s'.disk, f) == FileAt(s.disk, f);
      }
      forall p | p in s.store && p !in t.refuse ensures ContentAt(s'.store, p) == ContentAt(s.store, p) {
        var f := Target(dir, p).value;
        assert FileAt(s'.disk, f) == FileAt(s.disk, f) && ListedAs(s'.disk, f, p);
      }
    }
  }

  /** A writable pass none of whose requests fail ends quiet, if the listing shows each file under
      a path that the API keeps. */
  lemma PassEndsQuiet(dir: File, s: Sync, s': Sync, t: Turn)
    requires Passed(dir, true, s, s', t) && t.refuse == {}
    requires forall f :: f in t.files ==> ApiPath(PathOf(f)) == Some(PathOf(f))
    ensures Quiet(dir, s')
  {
    forall f | f in s'.disk && !IsMarkerFile(f) ensures PathOf(f) in s'.store {
      assert f in t.files && ListedAs(s'.disk, f, PathOf(f));
      if PathOf(f) !in s.store {
        assert CreatedFor(s.store, t.refuse, f, PathOf(f));
        NewRecordIs(dir, s, s', t, PathOf(f));
      }
    }
    forall p | p in s'.store
      ensures Canonical(dir, p) && !IsMarkerFile(Target(dir, p).value)
              && FileAt(s'.disk, Target(dir, p).value) == ContentAt(s'.store, p)
    {
      if p in s.store {
        var f :| ListedAs(s'.disk, f, p);
        ListedIsCanonical(dir, s', f, p);
      } else {
        var f := FirstCreated(t.files, s.store, t.refuse, p).value;
        ListedIsCanonical(dir, s', f, p);
      }
    }
  }
}
