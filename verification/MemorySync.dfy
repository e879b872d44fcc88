/** Reconciling a worker's copy of a memory store: the store's API, and the mount whose files,
    directories and baseline a pass changes in place. */
module MemorySync {
  import opened Wrappers
  import opened MemoryPaths
  import opened MemoryPass
  import opened MemoryRuns

  // ----- the store's API -----

  class Service {
    var memories: Records
    var nextId: nat

    ghost predicate Valid()
      reads this
    {
      && (forall p :: p in memories ==> memories[p].id < nextId)
      && (forall p, q :: p in memories && q in memories && memories[p].id == memories[q].id ==> p == q)
    }

    constructor ()
      ensures Valid() && memories == map[]
    {
      memories, nextId := map[], 0;
    }

    /** Keeps the memory under the trimmed and collapsed path; refuses one that it has. */
    method Create(path: Path, content: Content, refused: bool) returns (ok: bool)
      requires Valid()
      modifies this
      ensures Valid()
      ensures ok <==> !refused && ApiPath(path).Some? && ApiPath(path).value !in old(memories)
      ensures !ok ==> memories == old(memories)
      ensures ok ==> exists id :: memories == old(memories)[ApiPath(path).value := Rec(id, content)]
    {
      var kept := ApiPath(path);
      ok := !refused && kept.Some? && kept.value !in memories;
      if ok {
        memories := memories[kept.value := Rec(nextId, content)];
        nextId := nextId + 1;
      }
    }

    /** Replaces the record's content if it still has the expected hash. A request that finds
        another hash but asks for what is already there succeeds too, and changes nothing. */
    method Update(id: nat, expected: Content, content: Content, refused: bool, ghost path: Path) returns (ok: bool)
      requires Valid() && path in memories && memories[path].id == id
      modifies this
      ensures Valid()
      ensures ok <==> !refused && (old(memories[path].content) == expected || old(memories[path].content) == content)
      ensures memories == if ok then old(memories)[path := Rec(id, content)] else old(memories)
    {
      var p :| p in memories && memories[p].id == id;
      if refused {
        return false;
      }
      if memories[p].content != expected {
        return memories[p].content == content;
      }
      memories := memories[p := Rec(id, content)];
      ok := true;
    }

    /** Removes the record if it still has the expected hash. */
    method Delete(id: nat, expected: Content, refused: bool, ghost path: Path) returns (ok: bool)
      requires Valid() && path in memories && memories[path].id == id
      modifies this
      ensures Valid()
      ensures ok <==> !refused && old(memories[path].content) == expected
      ensures memories == if ok then old(memories) - {path} else old(memories)
    {
      var p :| p in memories && memories[p].id == id;
      ok := !refused && memories[p].content == expected;
      if ok {
        memories := memories - {p};
      }
    }
  }

  function MarkerText(storeId: string): Content {
    "memory_store_id=" + storeId + "\n"
  }

  class Mount {
    const dir: File
    const writable: bool
    var disk: map<File, Content>
    var dirs: set<File>
    var known: Records
    /** The files written by pulls so far. */
    var written: seq<File>

    ghost predicate Valid()
      reads this
    {
      ProperFile(dir) && ValidPlace(disk, dirs)
    }

    function Here(): Place
      reads this
    {
      Place(disk, dirs, known, written)
    }

    /** A fresh mount holds its marker file. */
    constructor (dir: File, writable: bool, storeId: string)
      requires ProperFile(dir)
      ensures Valid() && this.dir == dir && this.writable == writable
      ensures Here() == Place(map[[MARKER_FILE] := MarkerText(storeId)], {[]}, map[], [])
    {
      this.dir, this.writable := dir, writable;
      disk, dirs, known, written := map[[MARKER_FILE] := MarkerText(storeId)], {[]}, map[], [];
    }

    // ----- the pull phase -----

    method PullOne(path: Path, rec: Rec) returns (threw: bool)
      requires Valid()
      modifies this
      ensures Valid()
      ensures threw <==> PullStep(dir, old(Here()), path, rec).None?
      ensures Here() == if threw then old(Here()) else PullStep(dir, old(Here()), path, rec).value
    {
      var target := Target(dir, path);
      if target.None? {
        return true;
      }
      TargetIsProper(dir, path);
      threw := false;
      var f := target.value;
      var local := FileAt(disk, f);
      var baseline := ContentAt(known, path);
      var localDirty := local.Some? && local != baseline;
      if localDirty && Some(rec.content) == baseline {
        return;  // the push phase uploads it
      }
      if local == Some(rec.content) {
        known := known[path := rec];
        return;
      }
      if !CanWrite(Here(), f) {
        return true;
      }
      disk, dirs, written := disk[f := rec.content], dirs + Parents(f), written + [f];
      known := known[path := rec];
    }

    /** The first `k` records of the listing; at the next one, if there is one, it has thrown. */
    method PullRecords(order: seq<Path>, remote: Records) returns (threw: bool, k: nat)
      requires Valid() && forall p :: p in order ==> p in remote
      modifies this
      ensures Valid()
      ensures k <= |order| && Some(Here()) == PullAll(dir, old(Here()), order[..k], remote)
      ensures threw <==> k < |order|
      ensures threw ==> PullAll(dir, old(Here()), order[..k + 1], remote).None?
      ensures threw <==> PullAll(dir, old(Here()), order, remote).None?
    {
      k := 0;
      ghost var start := Here();
      while k < |order|
        invariant k <= |order| && Valid()
        invariant PullAll(dir, start, order[..k], remote) == Some(Here())
      {
        assert order[..k + 1][..k] == order[..k];
        threw := PullOne(order[k], remote[order[k]]);
        if threw {
          ThrowsThroughout(dir, start, order, remote, k + 1);
          return;
        }
        k := k + 1;
      }
      assert order[..k] == order;
      threw := false;
    }

    /** Unlinks the file of a path that left the store; there may be none. */
    method DropOne(path: Path) returns (threw: bool)
      requires Valid()
      modifies this
      ensures Valid() && dirs == old(dirs) && written == old(written)
      ensures threw <==> Target(dir, path).None?
      ensures threw ==> disk == old(disk) && known == old(known)
      ensures !threw ==> disk == old(disk) - {Target(dir, path).value} && known == old(known) - {path}
    {
      var target := Target(dir, path);
      threw := target.None?;
      if !threw {
        disk := disk - {target.value};
        known := known - {path};
      }
    }

    /** Files whose record left the store go too. When it throws, the baseline paths in `left` have
        not been looked at. */
    method DropDeleted(remote: Records) returns (threw: bool, left: set<Path>)
      requires Valid()
      modifies this
      ensures Valid() && dirs == old(dirs) && written == old(written)
      ensures threw <==> exists p :: p in old(known) && p !in remote && Target(dir, p).None?
      ensures Dropped(dir, old(Here()), Here(), left, remote) && (!threw ==> left == {})
      ensures forall p :: p in old(known) && p !in left && p !in remote ==> Target(dir, p).Some?
    {
      ghost var start := Here();
      left := known.Keys;
      while left != {}
        invariant left <= known.Keys && left <= start.known.Keys
        invariant Valid() && dirs == old(dirs) && written == old(written)
        invariant forall p :: p in start.known && p !in left && p !in remote ==> Target(dir, p).Some?
        invariant Dropped(dir, start, Here(), left, remote)
      {
        var path :| path in left;
        ghost var before := Here();
        if path !in remote {
          threw := DropOne(path);
          if threw {
            return;
          }
        }
        DroppedOne(dir, start, before, Here(), left, remote, path);
        left := left - {path};
      }
      threw := false;
    }

    /** The pull phase. Wherever it throws, the first `k` records have been brought, and, if those are
        all, the departed paths outside `left` have been dropped. */
    method Pull(order: seq<Path>, remote: Records) returns (threw: bool, k: nat, left: set<Path>)
      requires Valid() && Listing(order, remote)
      modifies this
      ensures Valid()
      ensures var s := Sync(old(disk), old(dirs), old(known), remote);
        && (threw <==> PullThrows(dir, s))
        && PulledUpTo(dir, s, Sync(disk, dirs, known, remote), order, k, left)
        && (!threw ==>
              && k == |order| && left == {}
              && (forall f :: FileAt(disk, f) == PulledFile(dir, s, order, f))
              && (forall p :: ContentAt(known, p) == ContentAt(remote, p))
              && (forall p :: p in remote || p in old(known) ==> Target(dir, p).Some?))
    {
      ghost var s := Sync(disk, dirs, known, remote);
      ghost var start := Here();
      PullThrowsWhen(dir, start, order, remote);
      threw, k := PullRecords(order, remote);
      ghost var pulled := Here();
      left := known.Keys;
      if !threw {
        assert order[..k] == order;
        PulledPaths(dir, start, pulled, order, remote);
        threw, left := DropDeleted(remote);
      }
      PullStopped(dir, start, pulled, Here(), order, k, left, remote);
      if !threw {
        PullEnds(dir, s, Sync(disk, dirs, known, remote), order);
      }
    }

    // ----- the push phase -----

    /** One listed file; reading it back throws when its path escapes the mount. */
    method UploadOne(service: Service, remote: Records, f: File, refused: bool) returns (threw: bool, sent: bool)
      requires Valid() && service.Valid() && f in disk
      requires ContentAt(known, PathOf(f)) == ContentAt(remote, PathOf(f))
      requires PathOf(f) in remote ==>
                 PathOf(f) in service.memories && service.memories[PathOf(f)] == remote[PathOf(f)]
      modifies service
      ensures service.Valid()
      ensures threw <==> StartsWithDots(f[0])
      ensures sent <==> !threw && ContentAt(remote, PathOf(f)) != Some(disk[f])
      ensures if threw then service.memories == old(service.memories)
              else UploadedOne(remote, old(service.memories), service.memories, f, disk[f], refused)
    {
      var path := PathOf(f);
      TargetOfPath(dir, f);
      var target := Target(dir, path);
      if target.None? {
        return true, false;
      }
      threw, sent := false, false;
      var local := disk[target.value];
      if path in remote && (remote[path].content == local || Some(remote[path].content) != ContentAt(known, path)) {
        return;
      }
      sent := true;
      if path !in remote {
        var _ := service.Create(path, local, refused);
      } else {
        var _ := service.Update(remote[path].id, remote[path].content, local, refused, path);
      }
    }

    method UploadNext(service: Service, remote: Records, f: File, ghost done: seq<File>, refuse: set<Path>)
      returns (threw: bool, sent: bool)
      requires Valid() && service.Valid() && f in disk && !IsMarkerFile(f) && f !in done
      requires forall p :: ContentAt(known, p) == ContentAt(remote, p)
      requires Uploading(remote, disk, done, refuse, service.memories)
      modifies service
      ensures service.Valid()
      ensures threw <==> StartsWithDots(f[0])
      ensures sent ==> ShouldSend(disk, remote, PathOf(f))
      ensures Uploading(remote, disk, if threw then done else done + [f], refuse, service.memories)
    {
      ghost var m := service.memories;
      NotUploadedYet(remote, disk, done, refuse, m, f);
      threw, sent := UploadOne(service, remote, f, PathOf(f) in refuse);
      if !threw {
        OneMoreUploaded(remote, disk, done, refuse, m, service.memories, f);
      }
      assert ListedAs(disk, f, PathOf(f));
    }

    /** The uploads, in the order of the listing, up to the first file that throws. */
    method Upload(service: Service, remote: Records, files: seq<File>, refuse: set<Path>)
      returns (threw: bool, sent: set<Path>, k: nat)
      requires Valid() && service.Valid() && service.memories == remote && FileListing(files, disk)
      requires forall p :: ContentAt(known, p) == ContentAt(remote, p)
      modifies service
      ensures service.Valid()
      ensures k <= |files| && (threw <==> k < |files|) && (threw ==> StartsWithDots(files[k][0]))
      ensures forall i :: 0 <= i < k ==> !StartsWithDots(files[i][0])
      ensures Uploading(remote, disk, files[..k], refuse, service.memories)
      ensures forall p :: p in sent ==> ShouldSend(disk, remote, p)
    {
      sent, threw, k := {}, false, 0;
      NothingUploaded(remote, disk, refuse);
      assert files[..0] == [];
      while k < |files|
        invariant k <= |files| && service.Valid()
        invariant Uploading(remote, disk, files[..k], refuse, service.memories)
        invariant forall i :: 0 <= i < k ==> !StartsWithDots(files[i][0])
        invariant forall p :: p in sent ==> ShouldSend(disk, remote, p)
      {
        NextListed(files, disk, k);
        var one;
        threw, one := UploadNext(service, remote, files[k], files[..k], refuse);
        if threw {
          return;
        }
        if one {
          sent := sent + {PathOf(files[k])};
        }
        k := k + 1;
      }
    }

    method DeleteOne(service: Service, rec: Rec, path: Path, refused: bool)
      requires service.Valid() && path in service.memories && service.memories[path] == rec
      requires ContentAt(known, path) == Some(rec.content)
      modifies service
      ensures service.Valid()
      ensures service.memories == if refused then old(service.memories) else old(service.memories) - {path}
    {
      if rec.content == known[path].content {
        var _ := service.Delete(rec.id, rec.content, refused, path);
      }
    }

    /** The delete arm: baseline paths that no listed file shows. */
    method DeleteMissing(service: Service, remote: Records, local: set<Path>, refuse: set<Path>)
      returns (sent: set<Path>)
      requires service.Valid()
      requires forall p :: ContentAt(known, p) == ContentAt(remote, p)
      requires forall p :: p in remote && p !in local ==> p in service.memories && service.memories[p] == remote[p]
      modifies service
      ensures service.Valid()
      ensures forall p :: ContentAt(service.memories, p) ==
                if p in remote && p !in local && p !in refuse then None else ContentAt(old(service.memories), p)
      ensures forall p :: p in sent ==> p in remote && p !in local
    {
      sent := {};
      assert forall p :: p in known <==> p in remote by {
        forall p ensures p in known <==> p in remote { assert ContentAt(known, p) == ContentAt(remote, p); }
      }
      var todo := known.Keys;
      while todo != {}
        invariant todo <= known.Keys && service.Valid()
        invariant forall p :: p in todo && p !in local ==> p in service.memories && service.memories[p] == remote[p]
        invariant forall p :: ContentAt(service.memories, p) ==
                    if p in remote && p !in todo && p !in local && p !in refuse then None
                    else ContentAt(old(service.memories), p)
        invariant forall p :: p in sent ==> p in remote && p !in local
      {
        var path :| path in todo;
        todo := todo - {path};
        if path !in local && path in remote {
          assert ContentAt(known, path) == ContentAt(remote, path);
          sent := sent + {path};
          DeleteOne(service, remote[path], path, path in refuse);
        }
      }
    }

    /** The recursive walk of the mount, in some order. */
    method ListFiles() returns (files: seq<File>)
      ensures FileListing(files, disk)
    {
      files := [];
      var todo := set f | f in disk && !IsMarkerFile(f);
      while todo != {}
        invariant forall f :: f in disk && !IsMarkerFile(f) <==> f in todo || f in files
        invariant forall f :: f in files ==> f !in todo
        invariant forall i, j :: 0 <= i < j < |files| ==> files[i] != files[j]
      {
        var f :| f in todo;
        todo, files := todo - {f}, files + [f];
      }
    }

    method Push(service: Service, remote: Records, files: seq<File>, refuse: set<Path>)
      returns (threw: bool, sent: set<Path>, k: nat)
      requires Valid() && service.Valid() && service.memories == remote && FileListing(files, disk)
      requires forall p :: ContentAt(known, p) == ContentAt(remote, p)
      modifies service
      ensures service.Valid()
      ensures threw <==> PushThrows(Sync(disk, dirs, known, remote))
      ensures k <= |files| && (threw ==> k < |files| && files[k] != [] && StartsWithDots(files[k][0]))
      ensures threw ==> Uploading(remote, disk, files[..k], refuse, service.memories)
      ensures !threw ==> forall order ::
                Pushed(Sync(disk, dirs, known, remote), Sync(disk, dirs, known, service.memories),
                       Turn(order, files, refuse))
      ensures forall p :: p in sent ==> ShouldSend(disk, remote, p)
    {
      threw, sent, k := Upload(service, remote, files, refuse);
      FilesAreProper(files);
      if threw {
        return;
      }
      assert files[..k] == files;
      ghost var uploaded := service.memories;
      var local := ListedPaths(disk);
      NotListedNotUploaded(remote, disk, files, refuse, uploaded);
      var deleted := DeleteMissing(service, remote, local, refuse);
      sent := sent + deleted;
      PushMeans(Sync(disk, dirs, known, remote), files, uploaded, service.memories, refuse);
    }

    lemma FilesAreProper(files: seq<File>)
      requires Valid() && FileListing(files, disk)
      ensures forall i :: 0 <= i < |files| ==> files[i] in disk && files[i] != []
    {
      forall i | 0 <= i < |files| ensures files[i] in disk && files[i] != [] {
        assert files[i] in files;
      }
    }

    /** One reconcile pass. `order` is how the store listed its records, `refuse` the set of paths
        whose requests fail, `files` how the push listed its files; `lists` and `relists` say
        whether the two listings of the store succeed. */
    method Reconcile(service: Service, order: seq<Path>, refuse: set<Path>, lists: bool, relists: bool)
      returns (end: End, files: seq<File>, sent: set<Path>)
      requires Valid() && service.Valid() && Listing(order, service.memories)
      modifies this, service
      ensures Valid() && service.Valid()
      ensures var s := old(Sync(disk, dirs, known, service.memories));
        && Ended(dir, writable, s, Sync(disk, dirs, known, service.memories), Turn(order, files, refuse), end)
        && (end.ListThrew? <==> !lists)
        && (end.PullThrew? <==> lists && PullThrows(dir, s))
        && (end.PushThrew? <==> lists && !PullThrows(dir, s) && writable && PushThrows(s))
        && (end.Done? ==> relists) && (end.RelistThrew? ==> !relists)
        && (forall p :: p in sent ==> writable && ShouldSend(disk, s.store, p))
    {
      var remote := service.memories;
      ghost var s := Sync(disk, dirs, known, remote);
      sent, files := {}, [];
      if !lists {
        return ListThrew, [], {};
      }
      var threw, k, left := Pull(order, remote);
      if threw {
        return PullThrew(k, left), [], {};
      }
      DottedFilesStay(dir, s, Sync(disk, dirs, known, remote), order);
      if writable {
        files := ListFiles();
        threw, sent, k := Push(service, remote, files, refuse);
        if threw {
          return PushThrew(k), files, sent;
        }
      }
      if !relists {
        return RelistThrew, files, sent;
      }
      known := service.memories;
      end := Done;
    }
  }

  lemma NextListed(files: seq<File>, disk: map<File, Content>, k: nat)
    requires FileListing(files, disk) && k < |files|
    ensures files[k] in disk && !IsMarkerFile(files[k]) && files[k] !in files[..k]
    ensures files[..k + 1] == files[..k] + [files[k]]
  {
    assert files[k] in files;
  }

  lemma DottedFilesStay(dir: File, s: Sync, pulled: Sync, order: seq<Path>)
    requires forall f :: FileAt(pulled.disk, f) == PulledFile(dir, s, order, f)
    ensures PushThrows(pulled) <==> PushThrows(s)
  {
    forall f | f != [] && StartsWithDots(f[0]) ensures FileAt(pulled.disk, f) == FileAt(s.disk, f) {
      DottedFileStays(dir, s, order, f);
    }
    if f :| f in pulled.disk && !IsMarkerFile(f) && f != [] && StartsWithDots(f[0]) {
      assert FileAt(pulled.disk, f) == FileAt(s.disk, f);
    }
    if f :| f in s.disk && !IsMarkerFile(f) && f != [] && StartsWithDots(f[0]) {
      assert FileAt(pulled.disk, f) == FileAt(s.disk, f);
    }
  }

  /** A request for `p` is due: its file differs from the store's record, or no file shows it. */
  ghost predicate ShouldSend(disk: map<File, Content>, remote: Records, p: Path) {
    || (exists f :: ListedAs(disk, f, p) && ContentAt(remote, p) != Some(disk[f]))
    || (p in remote && p !in ListedPaths(disk))
  }

  /** The paths under which the listing of local files shows them. */
  function ListedPaths(disk: map<File, Content>): (paths: set<Path>)
    ensures forall p :: p in paths <==> exists f :: ListedAs(disk, f, p)
  {
    var paths := set f | f in disk && !IsMarkerFile(f) :: PathOf(f);
    assert forall f :: f in disk && !IsMarkerFile(f) ==> ListedAs(disk, f, PathOf(f));
    paths
  }

  /** What the request for one file, if any, does to the records. */
  ghost predicate UploadedOne(remote: Records, before: Records, after: Records, f: File, content: Content,
                              refused: bool)
  {
    var path := PathOf(f);
    if path in remote then
      after == if refused || remote[path].content == content then before
               else before[path := Rec(remote[path].id, content)]
    else if refused || ApiPath(path).None? || ApiPath(path).value in before then after == before
    else exists id :: after == before[ApiPath(path).value := Rec(id, content)]
  }

  lemma NothingUploaded(remote: Records, disk: map<File, Content>, refuse: set<Path>)
    ensures Uploading(remote, disk, [], refuse, remote)
  {
  }

  lemma OtherPath(done: seq<File>, f: File)
    requires f !in done && ProperFile(f) && forall g :: g in done ==> ProperFile(g)
    ensures forall g :: g in done ==> PathOf(g) != PathOf(f)
  {
    forall g | g in done ensures PathOf(g) != PathOf(f) {
      if PathOf(g) == PathOf(f) { PathOfInjective(f, g); }
    }
  }

  lemma NotUploadedYet(remote: Records, disk: map<File, Content>, done: seq<File>, refuse: set<Path>, m: Records,
                       f: File)
    requires Uploading(remote, disk, done, refuse, m) && f !in done && ProperFile(f)
    ensures PathOf(f) in remote ==> PathOf(f) in m && m[PathOf(f)] == remote[PathOf(f)]
  {
    OtherPath(done, f);
  }

  lemma FirstOfMore(done: seq<File>, f: File, remote: Records, refuse: set<Path>, p: Path)
    ensures var before := FirstCreated(done, remote, refuse, p);
      FirstCreated(done + [f], remote, refuse, p) ==
      if before.Some? then before else if CreatedFor(remote, refuse, f, p) then Some(f) else None
  {
    assert (done + [f])[..|done|] == done;
  }

  lemma StillUpdated(remote: Records, disk: map<File, Content>, done: seq<File>, refuse: set<Path>,
                     m: Records, m': Records, f: File)
    requires PathOf(f) !in remote
    requires Updated(remote, disk, done, refuse, m) && forall p :: p in remote ==> p in m' && m'[p] == m[p]
    ensures Updated(remote, disk, done + [f], refuse, m')
  {
    forall p | p in remote && (forall g :: g in done + [f] ==> PathOf(g) != p) ensures m'[p] == remote[p] {
      assert forall g :: g in done ==> g in done + [f];
    }
  }

  lemma OneMoreUpdated(remote: Records, disk: map<File, Content>, done: seq<File>, refuse: set<Path>,
                       m: Records, m': Records, f: File)
    requires Updated(remote, disk, done, refuse, m) && f in disk && f !in done && ProperFile(f)
    requires forall g :: g in done ==> ProperFile(g)
    requires PathOf(f) in remote && UploadedOne(remote, m, m', f, disk[f], PathOf(f) in refuse)
    ensures Updated(remote, disk, done + [f], refuse, m')
    ensures forall p :: p !in remote ==> ContentAt(m', p) == ContentAt(m, p)
  {
    OtherPath(done, f);
    assert m[PathOf(f)] == remote[PathOf(f)];
    forall p | p in remote && (forall g :: g in done + [f] ==> PathOf(g) != p) ensures m'[p] == remote[p] {
      assert f in done + [f];
      assert forall g :: g in done ==> g in done + [f];
    }
  }

  lemma OneMoreMade(remote: Records, disk: map<File, Content>, done: seq<File>, refuse: set<Path>,
                    m: Records, m': Records, f: File)
    requires Uploading(remote, disk, done, refuse, m) && f in disk
    requires UploadedOne(remote, m, m', f, disk[f], PathOf(f) in refuse)
    ensures Made(remote, disk, done + [f], refuse, m')
  {
    forall p | p !in remote ensures ContentAt(m', p) == CreatedContent(done + [f], disk, remote, refuse, p) {
      FirstOfMore(done, f, remote, refuse, p);
      assert ContentAt(m, p) == CreatedContent(done, disk, remote, refuse, p);
      var before := FirstCreated(done, remote, refuse, p);
      assert before.Some? ==> before.value in disk;
    }
  }

  lemma OneMoreUploaded(remote: Records, disk: map<File, Content>, done: seq<File>, refuse: set<Path>,
                        m: Records, m': Records, f: File)
    requires Uploading(remote, disk, done, refuse, m) && f in disk && f !in done && ProperFile(f)
    requires UploadedOne(remote, m, m', f, disk[f], PathOf(f) in refuse)
    ensures Uploading(remote, disk, done + [f], refuse, m')
  {
    if PathOf(f) in remote {
      OneMoreUpdated(remote, disk, done, refuse, m, m', f);
    } else {
      StillUpdated(remote, disk, done, refuse, m, m', f);
    }
    OneMoreMade(remote, disk, done, refuse, m, m', f);
  }

  lemma NotListedNotUploaded(remote: Records, disk: map<File, Content>, files: seq<File>, refuse: set<Path>, m: Records)
    requires Uploading(remote, disk, files, refuse, m) && FileListing(files, disk)
    ensures forall p :: p in remote && p !in ListedPaths(disk) ==> p in m && m[p] == remote[p]
  {
    forall p | p in remote && p !in ListedPaths(disk) ensures p in m && m[p] == remote[p] {
      assert forall f :: f in files ==> ListedAs(disk, f, PathOf(f));
    }
  }

  lemma PushMeans(s: Sync, files: seq<File>, uploaded: Records, m: Records, refuse: set<Path>)
    requires FileListing(files, s.disk) && !PushThrows(s)
    requires Uploading(s.store, s.disk, files, refuse, uploaded)
    requires forall p :: ContentAt(m, p) ==
               if p in s.store && p !in ListedPaths(s.disk) && p !in refuse then None else ContentAt(uploaded, p)
    ensures forall order :: Pushed(s, s.(store := m), Turn(order, files, refuse))
  {
    forall p, f | p in s.store && p !in refuse && ListedAs(s.disk, f, p) ensures ContentAt(m, p) == Some(s.disk[f]) {
      assert f in files;
    }
    forall p | p in s.store && p in refuse ensures ContentAt(m, p) == ContentAt(s.store, p) {
      assert ContentAt(m, p) == ContentAt(uploaded, p);
      if f :| f in files && PathOf(f) == p {
        assert uploaded[p].content == s.store[p].content;
      }
    }
  }

  /** A throw at one record is the whole pull's. */
  lemma {:induction false} ThrowsThroughout(dir: File, s: Place, order: seq<Path>, remote: Records, k: nat)
    requires forall p :: p in order ==> p in remote
    requires k <= |order| && PullAll(dir, s, order[..k], remote).None?
    ensures PullAll(dir, s, order, remote).None?
    decreases |order|
  {
    if k == |order| {
      assert order[..k] == order;
    } else {
      var before := order[..|order| - 1];
      assert before[..k] == order[..k];
      ThrowsThroughout(dir, s, before, remote, k);
    }
  }

  /** Of the paths that left the store, all but those still `listed` are dropped. */
  ghost predicate Dropped(dir: File, start: Place, now: Place, listed: set<Path>, remote: Records) {
    && (forall f :: FileAt(now.disk, f) ==
          if GoneSince(dir, start.known, listed, remote, f) then None else FileAt(start.disk, f))
    && (forall p :: ContentAt(now.known, p) == if p in remote || p in listed then ContentAt(start.known, p) else None)
  }

  lemma PulledPaths(dir: File, start: Place, pulled: Place, order: seq<Path>, remote: Records)
    requires Listing(order, remote) && PullAll(dir, start, order, remote) == Some(pulled)
    ensures forall p :: p in pulled.known <==> p in remote || p in start.known
    ensures forall p :: p in remote ==> Target(dir, p).Some?
  {
    PullAllMeans(dir, start, order, remote);
    forall p ensures p in pulled.known <==> p in remote || p in start.known {
      assert ContentAt(pulled.known, p) == if p in order then ContentAt(remote, p) else ContentAt(start.known, p);
    }
  }

  lemma PullThrowsWhen(dir: File, start: Place, order: seq<Path>, remote: Records)
    requires ProperFile(dir) && ValidPlace(start.disk, start.dirs) && Listing(order, remote)
    ensures PullThrows(dir, Sync(start.disk, start.dirs, start.known, remote)) <==>
            || PullAll(dir, start, order, remote).None?
            || exists p :: p in start.known && p !in remote && Target(dir, p).None?
  {
    PullSucceedsWhen(dir, start, order, remote);
    FitsMeans(dir, Sync(start.disk, start.dirs, start.known, remote), order);
  }

  lemma PullStopped(dir: File, start: Place, pulled: Place, now: Place, order: seq<Path>, k: nat, left: set<Path>,
                    remote: Records)
    requires Listing(order, remote) && ValidPlace(start.disk, start.dirs) && ValidPlace(now.disk, now.dirs)
    requires k <= |order| && PullAll(dir, start, order[..k], remote) == Some(pulled)
    requires Dropped(dir, pulled, now, left, remote) && (k < |order| ==> left == pulled.known.Keys)
    requires forall p :: p in pulled.known && p !in left && p !in remote ==> Target(dir, p).Some?
    ensures PulledUpTo(dir, Sync(start.disk, start.dirs, start.known, remote),
                       Sync(now.disk, now.dirs, now.known, remote), order, k, left)
  {
    var done := order[..k];
    assert forall p :: p in done ==> p in order;
    PullAllMeans(dir, start, done, remote);
    forall p ensures p in pulled.known <==> p in done || p in start.known {
      assert ContentAt(pulled.known, p) == if p in done then ContentAt(remote, p) else ContentAt(start.known, p);
    }
    forall f ensures GoneSince(dir, pulled.known, left, remote, f) <==> GoneSince(dir, start.known, left, remote, f) {
    }
  }

  lemma PullEnds(dir: File, s: Sync, s': Sync, order: seq<Path>)
    requires Listing(order, s.store) && PulledUpTo(dir, s, s', order, |order|, {})
    ensures forall f :: FileAt(s'.disk, f) == PulledFile(dir, s, order, f)
    ensures forall p :: ContentAt(s'.known, p) == ContentAt(s.store, p)
    ensures forall p :: p in s.store || p in s.known ==> Target(dir, p).Some?
  {
    assert order[..|order|] == order;
    forall f ensures FileAt(s'.disk, f) == PulledFile(dir, s, order, f) { PullLeavesFile(dir, s, s', order, f); }
  }

  lemma GoneSinceOne(dir: File, known: Records, before: set<Path>, remote: Records, path: Path, f: File)
    requires path in before && path in known
    ensures GoneSince(dir, known, before - {path}, remote, f)
       <==> GoneSince(dir, known, before, remote, f) || (path !in remote && Target(dir, path) == Some(f))
  {
    if p :| p in known && p !in before && p !in remote && Target(dir, p) == Some(f) {
      assert p !in before - {path};
    }
    if path !in remote && Target(dir, path) == Some(f) {
      assert path !in before - {path};
    }
  }

  lemma DroppedOne(dir: File, start: Place, before: Place, now: Place, listed: set<Path>, remote: Records, path: Path)
    requires path in listed && path in start.known && Dropped(dir, start, before, listed, remote)
    requires if path in remote then now == before
             else && Target(dir, path).Some?
                  && now.disk == before.disk - {Target(dir, path).value} && now.known == before.known - {path}
    ensures Dropped(dir, start, now, listed - {path}, remote)
  {
    forall f
      ensures FileAt(now.disk, f) ==
              if GoneSince(dir, start.known, listed - {path}, remote, f) then None else FileAt(start.disk, f)
    {
      GoneSinceOne(dir, start.known, listed, remote, path, f);
    }
  }

  /** When nothing changed since a quiet pass, no request is due. */
  lemma QuietSendsNothing(dir: File, s: Sync, p: Path)
    requires Quiet(dir, s)
    ensures !ShouldSend(s.disk, s.store, p)
  {
    if f :| ListedAs(s.disk, f, p) && ContentAt(s.store, p) != Some(s.disk[f]) {
      PathOfInjective(f, Target(dir, p).value);
    }
    if p in s.store {
      assert ListedAs(s.disk, Target(dir, p).value, p);
    }
  }
}
