/** One path over many passes: what happens to its three versions, and which edits survive when
    requests fail and passes throw. */
module MemoryEvents {
  import opened Wrappers
  import opened MemoryPass

  /** What can happen to one path: the agent edits the file, another writer changes the store
      between passes, or a pass runs. One that runs to its end has its request answered or not; one
      that throws may have pulled the path by then, and after that sent its request. */
  datatype Event =
    | EditLocal(local: Option<Content>)
    | EditRemote(remote: Option<Content>)
    | Pass(sends: bool)
    | ThrownPass(pulls: bool, sends: bool)

  function AfterPass(v: Versions, sends: bool): Versions {
    var remote := if sends then Merge(v) else v.remote;
    Versions(remote, Merge(v), remote)
  }

  /** A pass that throws after it has pulled the path keeps the listing it began with as its baseline. */
  function AfterThrow(v: Versions, sends: bool): Versions {
    AfterPass(v, sends).(base := v.remote)
  }

  function AfterEvent(v: Versions, e: Event): Versions {
    match e
    case EditLocal(local) => v.(local := local)
    case EditRemote(remote) => v.(remote := remote)
    case Pass(sends) => AfterPass(v, sends)
    case ThrownPass(pulls, sends) => if pulls then AfterThrow(v, sends) else v
  }

  function AfterEvents(v: Versions, events: seq<Event>): Versions
    decreases |events|
  {
    if events == [] then v else AfterEvent(AfterEvents(v, events[..|events| - 1]), events[|events| - 1])
  }

  /** The pass replaces the store's version: the file alone changed since the baseline. */
  predicate Uploads(v: Versions, sends: bool) {
    sends && v.local.Some? && v.local != v.base && v.base == v.remote
  }

  /** A pass replaces a store version only when that version is the baseline, and then by the file. */
  lemma OnlyBaselineIsReplaced(v: Versions, sends: bool)
    ensures AfterPass(v, sends).remote == if Uploads(v, sends) then v.local else v.remote
    ensures Uploads(v, sends) ==> v.local != v.remote
  {
  }

  // ----- what the baseline is -----

  predicate Pulls(e: Event) {
    e.Pass? || (e.ThrownPass? && e.pulls)
  }

  /** The last pass that pulled the path. */
  function LastPull(events: seq<Event>): (i: Option<nat>)
    ensures i.Some? ==> i.value < |events| && Pulls(events[i.value])
    ensures forall j :: (if i.Some? then i.value < j else 0 <= j) && j < |events| ==> !Pulls(events[j])
    decreases |events|
  {
    if events == [] then None
    else if Pulls(events[|events| - 1]) then Some(|events| - 1)
    else
      assert forall j :: 0 <= j < |events| - 1 ==> events[..|events| - 1][j] == events[j];
      LastPull(events[..|events| - 1])
  }

  /** Over every run the baseline is what the store held when the last pass that pulled the path
      ended, or, if that pass threw, what it held when that pass began. */
  lemma {:induction false} BaselineIs(v: Versions, events: seq<Event>)
    ensures AfterEvents(v, events).base ==
            match LastPull(events)
            case None => v.base
            case Some(i) => AfterEvents(v, if events[i].Pass? then events[..i + 1] else events[..i]).remote
    decreases |events|
  {
    if events != [] {
      var n := |events| - 1;
      if Pulls(events[n]) {
        assert events[..n + 1] == events;
      } else {
        BaselineIs(v, events[..n]);
        assert forall i :: 0 <= i <= n ==> events[..n][..i] == events[..i];
      }
    }
  }

  /** So after any run the next pass keeps the file as it is if and only if the store holds the same,
      or the file is there and the store holds what it held at that moment. */
  lemma FileIsKeptExactlyWhen(v: Versions, events: seq<Event>)
    ensures var now, i := AfterEvents(v, events), LastPull(events);
      Merge(now) == now.local <==>
        || now.remote == now.local
        || (now.local.Some? && now.remote ==
            if i.None? then v.base
            else AfterEvents(v, if events[i.value].Pass? then events[..i.value + 1] else events[..i.value]).remote)
  {
    BaselineIs(v, events);
  }

  // ----- edits, while nobody else writes the store -----

  predicate NobodyElse(events: seq<Event>) {
    forall e :: e in events ==> !e.EditRemote?
  }

  /** The pass threw after it had replaced the store's version. */
  predicate ThrewAfterUploading(v: Versions, events: seq<Event>, i: nat)
    requires i < |events|
  {
    var e := events[i];
    e.ThrownPass? && e.pulls && Uploads(AfterEvents(v, events[..i]), e.sends)
  }

  lemma OneEvent(before: Versions, e: Event)
    requires !e.EditRemote?
    requires before.base == before.remote || before.remote.Some?
    ensures var now := AfterEvent(before, e);
      && (now.base == now.remote || now.remote.Some?)
      && (!Pulls(e) ==> now.base == before.base && now.remote == before.remote)
      && (Pulls(e) ==> (now.base != now.remote <==> e.ThrownPass? && Uploads(before, e.sends)))
  {
  }

  /** Then the store holds what the last pass that pulled left there. */
  lemma {:induction false} StoreSinceLastPull(v: Versions, events: seq<Event>)
    requires v.base == v.remote && NobodyElse(events)
    ensures var now, i := AfterEvents(v, events), LastPull(events);
      && (now.base == now.remote || now.remote.Some?)
      && now.remote == (if i.Some? then AfterEvents(v, events[..i.value + 1]).remote else v.remote)
      && (now.base != now.remote <==> i.Some? && ThrewAfterUploading(v, events, i.value))
    decreases |events|
  {
    if events != [] {
      var n := |events| - 1;
      var before := events[..n];
      assert events == before + [events[n]];
      StoreSinceLastPull(v, before);
      OneEvent(AfterEvents(v, before), events[n]);
      assert events[..n + 1] == events;
      var i := LastPull(before);
      if !Pulls(events[n]) && i.Some? {
        assert before[..i.value] == events[..i.value] && before[..i.value + 1] == events[..i.value + 1];
        assert ThrewAfterUploading(v, before, i.value) <==> ThrewAfterUploading(v, events, i.value);
      }
    }
  }

  /** The pass at `j` loses an edit: the file differs from the store because it has been deleted, or
      because it has been edited after the last pass that pulled had thrown after uploading. */
  predicate LosesEdit(v: Versions, events: seq<Event>, j: nat)
    requires j < |events|
  {
    var now, i := AfterEvents(v, events[..j]), LastPull(events[..j]);
    && Pulls(events[j]) && now.local != now.remote
    && (now.local.None? || (i.Some? && ThrewAfterUploading(v, events, i.value)))
  }

  /** And those are the only ways: whatever passes fail or throw, a pass changes the file if and only if so. */
  lemma PassLosesEditExactlyWhen(v: Versions, events: seq<Event>, j: nat)
    requires v.base == v.remote && NobodyElse(events)
    requires j < |events| && Pulls(events[j])
    ensures AfterEvents(v, events[..j + 1]).local != AfterEvents(v, events[..j]).local <==> LosesEdit(v, events, j)
    ensures LosesEdit(v, events, j) ==>
              AfterEvents(v, events[..j + 1]).local == AfterEvents(v, events[..j]).remote
  {
    var before := events[..j];
    assert forall e :: e in before ==> e in events;
    StoreSinceLastPull(v, before);
    StaleFileIsReplaced(AfterEvents(v, before), events[j]);
    assert events[..j + 1][..j] == before;
    assert AfterEvents(v, events[..j + 1]) == AfterEvent(AfterEvents(v, before), events[j]);
    var i := LastPull(before);
    if i.Some? {
      assert before[..i.value] == events[..i.value] && before[..i.value + 1] == events[..i.value + 1];
      assert ThrewAfterUploading(v, before, i.value) <==> ThrewAfterUploading(v, events, i.value);
    }
  }

  lemma StaleFileIsReplaced(now: Versions, e: Event)
    requires Pulls(e) && (now.base == now.remote || now.remote.Some?)
    ensures AfterEvent(now, e).local == Merge(now)
    ensures Merge(now) != now.local <==> now.local != now.remote && (now.local.None? || now.base != now.remote)
    ensures Merge(now) != now.local ==> Merge(now) == now.remote
  {
  }

  function LastEdit(local: Option<Content>, events: seq<Event>): Option<Content> {
    if events == [] then local
    else if events[|events| - 1].EditLocal? then events[|events| - 1].local
    else LastEdit(local, events[..|events| - 1])
  }

  /** How many events there are up to and including the last edit. */
  function UpToLastEdit(events: seq<Event>): (n: nat)
    ensures n <= |events|
  {
    if events == [] then 0
    else if events[|events| - 1].EditLocal? then |events|
    else UpToLastEdit(events[..|events| - 1])
  }

  /** While nobody else writes the store, the last edit is still on the disk after a run if and only
      if no pass since has lost it; the file holds the edit or what the store holds. */
  lemma {:induction false} LastEditSurvivesExactlyWhen(v: Versions, events: seq<Event>)
    requires v.base == v.remote && NobodyElse(events)
    ensures var now, edit := AfterEvents(v, events), LastEdit(v.local, events);
      && (now.local == edit <==> forall j :: UpToLastEdit(events) <= j < |events| ==> !LosesEdit(v, events, j))
      && (now.local == edit || now.local == now.remote)
    decreases |events|
  {
    if events != [] && !events[|events| - 1].EditLocal? {
      var n := |events| - 1;
      var before := AfterEvents(v, events[..n]);
      assert events == events[..n] + [events[n]];
      LastEditSurvivesExactlyWhen(v, events[..n]);
      forall j | 0 <= j < n ensures LosesEdit(v, events[..n], j) <==> LosesEdit(v, events, j) {
        SameLoss(v, events, n, j);
      }
      StoreSinceLastPull(v, events[..n]);
      if Pulls(events[n]) {
        PassLosesEditExactlyWhen(v, events, n);
        assert events[..n + 1] == events;
      }
      var edit := LastEdit(v.local, events);
      assert UpToLastEdit(events) <= n;
      if before.local != edit {
        assert before.local == before.remote;
      }
    }
  }

  lemma SameLoss(v: Versions, events: seq<Event>, n: nat, j: nat)
    requires j < n <= |events|
    ensures LosesEdit(v, events[..n], j) <==> LosesEdit(v, events, j)
  {
    assert events[..n][..j] == events[..j];
    var i := LastPull(events[..j]);
    if i.Some? {
      assert events[..n][..i.value] == events[..i.value] && events[..n][..i.value + 1] == events[..i.value + 1];
    }
  }

  /** A pass that runs to its end with its request answered then leaves the edit everywhere. */
  lemma SurvivingEditIsUploaded(v: Versions, events: seq<Event>)
    requires v.base == v.remote && NobodyElse(events)
    requires var all := events + [Pass(true)];
      forall j :: UpToLastEdit(all) <= j < |all| ==> !LosesEdit(v, all, j)
    ensures var edit := LastEdit(v.local, events);
      AfterEvents(v, events + [Pass(true)]) == Versions(edit, edit, edit)
  {
    var all := events + [Pass(true)];
    assert all[..|events|] == events;
    LastEditSurvivesExactlyWhen(v, all);
    StoreSinceLastPull(v, all);
  }

  predicate StoreUntouched(events: seq<Event>) {
    forall e :: e in events ==>
      || e == Pass(false) || (e.ThrownPass? && !(e.pulls && e.sends))
      || (e.EditLocal? && e.local.Some?)
  }

  /** In particular no number of passes whose request for the path fails, or that throw before they
      send it, loses an edit: the latest one is still on the disk and the first pass that succeeds
      uploads it. */
  lemma {:induction false} FailedUploadsAreRetried(v: Versions, events: seq<Event>)
    requires v.base == v.remote && v.local.Some? && StoreUntouched(events)
    ensures var edit := LastEdit(v.local, events);
      && AfterEvents(v, events) == Versions(v.base, edit, v.remote) && edit.Some?
      && AfterEvents(v, events + [Pass(true)]) == Versions(edit, edit, edit)
    decreases |events|
  {
    assert (events + [Pass(true)])[..|events|] == events;
    if events != [] {
      assert events == events[..|events| - 1] + [events[|events| - 1]];
      FailedUploadsAreRetried(v, events[..|events| - 1]);
    }
  }

  // ----- right after a pass that threw -----

  /** When nothing happens before the next pass, that one ends where two whole passes would have. */
  lemma NextPassMakesUpForThrow(v: Versions, sends: bool, sendsNext: bool)
    ensures AfterPass(AfterThrow(v, sends), sendsNext) == AfterPass(AfterPass(v, sends), sendsNext)
  {
  }

  /** An edit made in between is kept by the next pass exactly when the one that threw uploaded
      nothing here, or uploaded the same. After a pass that ran to its end it is always kept. */
  lemma EditAfterThrow(v: Versions, sends: bool, edit: Content)
    ensures Merge(AfterThrow(v, sends).(local := Some(edit))) == Some(edit) <==>
            !Uploads(v, sends) || Some(edit) == v.local
    ensures Merge(AfterPass(v, sends).(local := Some(edit))) == Some(edit)
  {
  }

  /** What another writer makes of the store in between, deletion included, stands exactly unless it
      puts back what was there before the pass that threw. After a pass that ran to its end it
      always stands. */
  lemma StoreEditAfterThrow(v: Versions, sends: bool, other: Option<Content>)
    requires other != AfterPass(v, sends).remote
    ensures Merge(AfterThrow(v, sends).(remote := other)) == other <==> other != v.remote
    ensures Merge(AfterPass(v, sends).(remote := other)) == other
  {
  }
}
