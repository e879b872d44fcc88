/** Concrete passes: what a mount makes of a dot segment, of two records for one file, of a record
    above another, of a trailing blank, and of changes after a pass that threw. */
module MemoryExamples {
  import opened Wrappers
  import opened MemoryPaths
  import opened MemoryPass
  import opened MemoryEvents
  import opened MemoryRuns
  import opened MemorySync

  lemma {:induction false} FileAfterOther(dir: File, s: Sync, order: seq<Path>, g: File, local: Option<Content>)
    requires forall p :: p in order ==> Target(dir, p) != Some(g)
    ensures FileAfter(dir, s.known, order, s.store, g, local) == local
  {
    if order != [] {
      assert order == order[..|order| - 1] + [order[|order| - 1]];
      FileAfterOther(dir, s, order[..|order| - 1], g, local);
    }
  }

  /** All paths resolve to one file, which is the only one there may be beside marker files. */
  ghost predicate OneFile(dir: File, s: Sync, f: File) {
    && (forall p :: p in s.store || p in s.known ==> Target(dir, p) == Some(f))
    && (forall g :: g in s.disk ==> g == f || IsMarkerFile(g))
    && !Blocked(s.disk, s.dirs, f)
    && f != [] && !StartsWithDots(f[0])
  }

  lemma OneFileRuns(dir: File, s: Sync, f: File)
    requires OneFile(dir, s, f)
    ensures !PullThrows(dir, s) && !PushThrows(s)
  {
  }

  lemma OneFileHasNoTwin(dir: File, s: Sync, t: Turn, f: File, p: Path)
    requires OneFile(dir, s, f) && Listing(t.order, s.store) && PathOf(f) == p
    ensures !HasTwin(dir, s, t, p)
  {
    forall g | g != f && !IsMarkerFile(g) ensures PulledFile(dir, s, t.order, g) == None {
      FileAfterOther(dir, s, t.order, g, None);
    }
  }

  /** A record alone in the store, in sync with its file but under another spelling than the file
      is listed by, moves although nothing changed since the last pass. */
  lemma LonelyAliasMoves(dir: File, s: Sync, s': Sync, t: Turn, p: Path, f: File)
    requires p in s.store && s.store.Keys == {p} && s.known == s.store && OneFile(dir, s, f)
    requires FileAt(s.disk, f) == ContentAt(s.store, p)
    requires Passed(dir, true, s, s', t) && t.refuse == {}
    requires PathOf(f) != p && ApiPath(PathOf(f)) == Some(PathOf(f)) && !IsMarkerFile(f)
    ensures p !in s'.store && ContentAt(s'.store, PathOf(f)) == ContentAt(s.store, p)
  {
    OneFileHasNoTwin(dir, s, t, f, PathOf(f));
    AliasMoves(dir, s, s', t, p);
  }

  /** Neither the file nor a directory above it is named like a marker file. */
  predicate Unmarked(f: File) {
    ProperFile(f) && f != [] && !StartsWithDots(f[0]) && forall k :: 0 <= k < |f| ==> f[k] != MARKER_FILE
  }

  /** A mount with its marker file and one file in place, and the given baseline. */
  method MountWith(dir: File, f: File, content: Content, known: Records) returns (mount: Mount)
    requires ProperFile(dir) && Unmarked(f)
    ensures fresh(mount) && mount.Valid() && mount.dir == dir && mount.writable
    ensures mount.disk.Keys == {f, [MARKER_FILE]} && mount.disk[f] == content
    ensures mount.dirs == Parents(f) && mount.known == known
  {
    mount := new Mount(dir, true, "m");
    assert f[..0] == [] && [] in Parents(f);
    mount.disk, mount.dirs, mount.known := mount.disk[f := content], Parents(f), known;
    forall k | 0 <= k < |f| ensures f[..k] in mount.dirs {
    }
    ParentsAreAbove(f, f);
    ParentsAreAbove(f, [MARKER_FILE]);
  }

  /** A pass over a single file whose requests all succeed runs to its end. */
  method PassOverOneFile(service: Service, mount: Mount, order: seq<Path>, ghost f: File)
    returns (memories: Records, ghost s': Sync, ghost t: Turn)
    requires mount.Valid() && mount.writable && service.Valid() && Listing(order, service.memories)
    requires OneFile(mount.dir, Sync(mount.disk, mount.dirs, mount.known, service.memories), f)
    modifies service, mount
    ensures s' == Sync(mount.disk, mount.dirs, mount.known, memories) && t.order == order && t.refuse == {}
    ensures Passed(mount.dir, true, old(Sync(mount.disk, mount.dirs, mount.known, service.memories)), s', t)
  {
    OneFileRuns(mount.dir, Sync(mount.disk, mount.dirs, mount.known, service.memories), f);
    var end, files, sent := mount.Reconcile(service, order, {}, true, true);
    memories := service.memories;
    s', t := Sync(mount.disk, mount.dirs, mount.known, memories), Turn(order, files, {});
  }

  /** An alias of a file: accepted by the API, but not how the file is listed. */
  ghost predicate Alias(dir: File, f: File, p: Path) {
    && Unmarked(f)
    && Target(dir, p) == Some(f) == Target(dir, PathOf(f)) && PathOf(f) != p
    && ApiPath(p) == Some(p) && ApiPath(PathOf(f)) == Some(PathOf(f))
  }

  lemma AliasIsOneFile(dir: File, s: Sync, f: File, p: Path)
    requires Alias(dir, f, p)
    requires (forall q :: q in s.store || q in s.known ==> q == p || q == PathOf(f))
    requires s.disk.Keys == {f, [MARKER_FILE]} || (s.disk.Keys == {[MARKER_FILE]} && s.dirs == {[]})
    ensures OneFile(dir, s, f)
  {
    UnmarkedIsFree(s, f);
  }

  lemma UnmarkedIsFree(s: Sync, f: File)
    requires Unmarked(f)
    requires f in s.disk || (s.disk.Keys == {[MARKER_FILE]} && s.dirs == {[]})
    ensures !Blocked(s.disk, s.dirs, f)
  {
    forall k | 0 <= k < |f| ensures f[..k] != [MARKER_FILE] {
      assert k > 0 ==> f[..k][0] == f[0];
    }
  }

  /** A synchronised record under an alias becomes a record under the file's own path. */
  method AliasAlone(dir: File, f: File, p: Path, content: Content) returns (memories: Records)
    requires ProperFile(dir) && Alias(dir, f, p)
    ensures p !in memories && ContentAt(memories, PathOf(f)) == Some(content)
  {
    var service := ServiceOf(p, content);
    var mount := MountWith(dir, f, content, service.memories);
    ghost var s := Sync(mount.disk, mount.dirs, mount.known, service.memories);
    AliasIsOneFile(dir, s, f, p);
    ghost var s', t;
    memories, s', t := PassOverOneFile(service, mount, [p], f);
    LonelyAliasMoves(dir, s, s', t, p, f);
  }

  lemma SecondSpellingWins(dir: File, s: Sync, s': Sync, t: Turn, f: File, p: Path)
    requires Alias(dir, f, p) && t.order == [p, PathOf(f)] && t.refuse == {}
    requires s.known == map[] && f !in s.disk && Passed(dir, true, s, s', t)
    ensures p !in s'.store && ContentAt(s'.store, PathOf(f)) == ContentAt(s.store, PathOf(f))
  {
    assert p in t.order && PathOf(f) in t.order;
    RecordSurvives(dir, s, s', t, p);
    RecordSurvives(dir, s, s', t, PathOf(f));
    assert t.order[..1] == [p] && [p][..0] == [];
  }

  method ServiceOf(p: Path, content: Content) returns (service: Service)
    requires ApiPath(p) == Some(p)
    ensures fresh(service) && service.Valid() && service.memories.Keys == {p} && service.memories[p].content == content
  {
    service := new Service();
    var _ := service.Create(p, content, false);
  }

  method ServiceWith(p: Path, first: Content, q: Path, second: Content) returns (service: Service)
    requires ApiPath(p) == Some(p) && ApiPath(q) == Some(q) && p != q
    ensures fresh(service) && service.Valid() && service.memories.Keys == {p, q}
    ensures service.memories[p].content == first && service.memories[q].content == second
  {
    service := new Service();
    var _ := service.Create(p, first, false);
    var _ := service.Create(q, second, false);
  }

  /** Of records under an alias and under the file's own path, downloaded into an empty mount in
      this order, only the latter is left, with its own content. */
  method AliasAndFile(dir: File, f: File, p: Path, first: Content, second: Content) returns (memories: Records)
    requires ProperFile(dir) && Alias(dir, f, p)
    ensures p !in memories && ContentAt(memories, PathOf(f)) == Some(second)
  {
    var service := ServiceWith(p, first, PathOf(f), second);
    var mount := new Mount(dir, true, "m");
    ghost var s := Sync(mount.disk, mount.dirs, mount.known, service.memories);
    AliasIsOneFile(dir, s, f, p);
    ghost var s', t;
    memories, s', t := PassOverOneFile(service, mount, [p, PathOf(f)], f);
    SecondSpellingWins(dir, s, s', t, f, p);
  }

  lemma DottedIsAlias(dir: File, a: string, b: string)
    requires Proper(a) && Proper(b) && !StartsWithDots(a) && a != MARKER_FILE && b != MARKER_FILE
    requires ApiPath(Dotted(a, b)) == Some(Dotted(a, b)) && ApiPath(PathOf([a, b])) == Some(PathOf([a, b]))
    ensures Alias(dir, [a, b], Dotted(a, b))
  {
    DottedIsAnAlias(dir, a, b);
  }

  lemma DottedExampleIsAlias(dir: File)
    ensures Alias(dir, ["a", "b"], "/a/./b") && PathOf(["a", "b"]) == "/a/b"
  {
    DottedExample();
    DottedIsAccepted();
    DottedIsAlias(dir, "a", "b");
  }

  /** `/a/./b`, in sync with its file, becomes `/a/b`. */
  method DottedRecordMoves(dir: File, content: Content) returns (memories: Records)
    requires ProperFile(dir)
    ensures "/a/./b" !in memories && ContentAt(memories, "/a/b") == Some(content)
  {
    DottedExampleIsAlias(dir);
    memories := AliasAlone(dir, ["a", "b"], "/a/./b", content);
  }

  /** Of `/a/./b` and `/a/b` only `/a/b` is left, with its own content; the other's is lost. */
  method TwoRecordsOneFile(dir: File, first: Content, second: Content) returns (memories: Records)
    requires ProperFile(dir)
    ensures "/a/./b" !in memories && ContentAt(memories, "/a/b") == Some(second)
  {
    DottedExampleIsAlias(dir);
    memories := AliasAndFile(dir, ["a", "b"], "/a/./b", first, second);
  }

  /** `/a` and `/a/b` are both accepted, and then no mount can pull. */
  method NestedRecordsThrow(mount: Mount, first: Content, second: Content) returns (end: End, memories: Records)
    requires mount.Valid()
    modifies mount
    ensures end.PullThrew?
    ensures ContentAt(memories, "/a") == Some(first) && ContentAt(memories, "/a/b") == Some(second)
  {
    NestedExample();
    var service := ServiceWith("/a", first, "/a/b", second);
    NestedRecordsStopEveryPull(mount.dir, Sync(mount.disk, mount.dirs, mount.known, service.memories));
    var files, sent;
    end, files, sent := mount.Reconcile(service, ["/a", "/a/b"], {}, true, true);
    memories := service.memories;
  }

  // ----- after a pass that threw -----

  /** Store, baseline and disk have nothing but one path and its own file, beside marker files; `v`
      says what they have there. */
  ghost predicate OnlyAt(dir: File, s: Sync, f: File, v: Versions) {
    && Unmarked(f) && ApiPath(PathOf(f)) == Some(PathOf(f)) && ValidPlace(s.disk, s.dirs)
    && (forall p :: p in s.store || p in s.known ==> p == PathOf(f))
    && (forall g :: g in s.disk ==> g == f || IsMarkerFile(g))
    && VersionsAt(dir, s, PathOf(f)) == v
  }

  lemma OnlyAtIsOneFile(dir: File, s: Sync, f: File, v: Versions)
    requires OnlyAt(dir, s, f, v) && v.local.Some?
    ensures OneFile(dir, s, f) && f in s.disk
  {
    TargetOfPath(dir, f);
    UnmarkedIsFree(s, f);
  }

  lemma OtherFilesStay(dir: File, s: Sync, s': Sync, t: Turn, f: File)
    requires OneFile(dir, s, f) && Passed(dir, true, s, s', t)
    ensures forall g :: g in s'.disk ==> g == f || IsMarkerFile(g)
  {
    forall g | g in s'.disk && g != f ensures IsMarkerFile(g) {
      FileAfterOther(dir, s, t.order, g, FileAt(s.disk, g));
      assert FileAt(s'.disk, g) == PulledFile(dir, s, t.order, g);
    }
  }

  lemma OtherPathsStay(dir: File, s: Sync, s': Sync, t: Turn, f: File, v: Versions)
    requires OnlyAt(dir, s, f, v) && OneFile(dir, s, f) && t.refuse == {} && Passed(dir, true, s, s', t)
    ensures forall p :: p in s'.store ==> p == PathOf(f)
  {
    forall p | p in s'.store ensures p == PathOf(f) {
      if p != PathOf(f) {
        NewRecordIs(dir, s, s', t, p);
        var g := FirstCreated(t.files, s.store, t.refuse, p).value;
        if g != f { FileAfterOther(dir, s, t.order, g, None); }
      }
    }
  }

  lemma PassOnlyAt(dir: File, s: Sync, s': Sync, t: Turn, f: File, v: Versions)
    requires OnlyAt(dir, s, f, v) && v.local.Some? && t.refuse == {} && Passed(dir, true, s, s', t)
    ensures OnlyAt(dir, s', f, AfterPass(v, true))
  {
    OnlyAtIsOneFile(dir, s, f, v);
    TargetOfPath(dir, f);
    OneFileHasNoTwin(dir, s, t, f, PathOf(f));
    PassProjects(dir, true, s, s', t, PathOf(f));
    OtherFilesStay(dir, s, s', t, f);
    OtherPathsStay(dir, s, s', t, f, v);
  }

  lemma ThrowOnlyAt(dir: File, s: Sync, s': Sync, f: File, v: Versions)
    requires OnlyAt(dir, s, f, v) && OnlyAt(dir, s'.(known := s'.store), f, AfterPass(v, true))
    requires forall p :: ContentAt(s'.known, p) == ContentAt(s.store, p)
    ensures OnlyAt(dir, s', f, AfterThrow(v, true))
  {
    forall p | p in s'.known ensures p == PathOf(f) { assert ContentAt(s'.known, p) == ContentAt(s.store, p); }
  }

  lemma EditOnlyAt(dir: File, s: Sync, f: File, v: Versions, edit: Content)
    requires OnlyAt(dir, s, f, v) && v.local.Some?
    ensures OnlyAt(dir, s.(disk := s.disk[f := edit]), f, v.(local := Some(edit)))
    ensures v.remote.Some? ==> Listing([PathOf(f)], s.store)
  {
    TargetOfPath(dir, f);
  }

  lemma EndOnlyAt(dir: File, s: Sync, s': Sync, t: Turn, end: End, f: File, v: Versions)
    requires OnlyAt(dir, s, f, v) && v.local.Some? && t.refuse == {} && Ended(dir, true, s, s', t, end)
    requires end.RelistThrew? || end.Done?
    ensures OnlyAt(dir, s', f, if end.Done? then AfterPass(v, true) else AfterThrow(v, true))
  {
    PassOnlyAt(dir, s, s'.(known := s'.store), t, f, v);
    if end.RelistThrew? { ThrowOnlyAt(dir, s, s', f, v); }
  }

  /** A pass over a single file, whose requests succeed but for the second listing perhaps. */
  method PassAtOnly(service: Service, mount: Mount, order: seq<Path>, relists: bool, ghost f: File, ghost v: Versions)
    requires mount.Valid() && mount.writable && service.Valid() && Listing(order, service.memories)
    requires OnlyAt(mount.dir, Sync(mount.disk, mount.dirs, mount.known, service.memories), f, v) && v.local.Some?
    modifies service, mount
    ensures mount.Valid() && service.Valid()
    ensures OnlyAt(mount.dir, Sync(mount.disk, mount.dirs, mount.known, service.memories), f,
                   if relists then AfterPass(v, true) else AfterThrow(v, true))
  {
    ghost var s := Sync(mount.disk, mount.dirs, mount.known, service.memories);
    OnlyAtIsOneFile(mount.dir, s, f, v);
    OneFileRuns(mount.dir, s, f);
    var end, files, sent := mount.Reconcile(service, order, {}, true, relists);
    EndOnlyAt(mount.dir, s, Sync(mount.disk, mount.dirs, mount.known, service.memories), Turn(order, files, {}),
              end, f, v);
  }

  /** A new file is uploaded, but then the second listing fails. */
  method UploadThenThrow(dir: File, f: File, content: Content) returns (service: Service, mount: Mount)
    requires ProperFile(dir) && Unmarked(f) && ApiPath(PathOf(f)) == Some(PathOf(f))
    ensures fresh(service) && fresh(mount) && service.Valid() && mount.Valid() && mount.dir == dir && mount.writable
    ensures OnlyAt(dir, Sync(mount.disk, mount.dirs, mount.known, service.memories), f,
                   Versions(None, Some(content), Some(content)))
  {
    TargetOfPath(dir, f);
    service := new Service();
    mount := MountWith(dir, f, content, map[]);
    PassAtOnly(service, mount, [], false, f, Versions(None, Some(content), None));
  }

  /** The agent then edits the file. The next pass, in which everything succeeds, puts it back,
      although nobody else wrote the store. */
  method EditLostAt(dir: File, f: File, content: Content, edit: Content)
    returns (file: Option<Content>, memories: Records)
    requires ProperFile(dir) && Unmarked(f) && ApiPath(PathOf(f)) == Some(PathOf(f))
    ensures file == Some(content) == ContentAt(memories, PathOf(f))
  {
    var service, mount := UploadThenThrow(dir, f, content);
    EditOnlyAt(dir, Sync(mount.disk, mount.dirs, mount.known, service.memories), f,
               Versions(None, Some(content), Some(content)), edit);
    mount.disk := mount.disk[f := edit];
    PassAtOnly(service, mount, [PathOf(f)], true, f, Versions(None, Some(edit), Some(content)));
    file, memories := FileAt(mount.disk, f), service.memories;
    TargetOfPath(dir, f);
  }

  /** Or somebody deletes the record. The next pass creates it again. */
  method DeletionUndoneAt(dir: File, f: File, content: Content) returns (deleted: bool, memories: Records)
    requires ProperFile(dir) && Unmarked(f) && ApiPath(PathOf(f)) == Some(PathOf(f))
    ensures deleted && ContentAt(memories, PathOf(f)) == Some(content)
  {
    var service, mount := UploadThenThrow(dir, f, content);
    deleted := service.Delete(service.memories[PathOf(f)].id, content, false, PathOf(f));
    PassAtOnly(service, mount, [], true, f, Versions(None, Some(content), None));
    memories := service.memories;
  }

  lemma PlainExample()
    ensures Unmarked(["x"]) && PathOf(["x"]) == "/x" && ApiPath("/x") == Some("/x")
  {
    assert ["x"][..0] == [];
    assert PathOf(["x"]) == "" + (['/'] + "x") == "/x";
    assert TrimStart("/x") == "/x" == TrimEnd("/x");
    assert Collapse("/x") == "/x";
  }

  /** For instance the file `x`: the edit is gone from disk and store. */
  method EditIsLost(dir: File, content: Content, edit: Content) returns (file: Option<Content>, memories: Records)
    requires ProperFile(dir)
    ensures file == Some(content) == ContentAt(memories, "/x")
  {
    PlainExample();
    file, memories := EditLostAt(dir, ["x"], content, edit);
  }

  method DeletionIsUndone(dir: File, content: Content) returns (deleted: bool, memories: Records)
    requires ProperFile(dir)
    ensures deleted && ContentAt(memories, "/x") == Some(content)
  {
    PlainExample();
    deleted, memories := DeletionUndoneAt(dir, ["x"], content);
  }

  // ----- a trailing blank -----

  /** A pass over a new file and an empty store. */
  method PassOverNewFile(dir: File, f: File, content: Content) returns (mount: Mount, memories: Records,
                                                                        ghost s: Sync, ghost t: Turn)
    requires ProperFile(dir) && Unmarked(f)
    ensures fresh(mount) && OneFile(dir, s, f) && FileAt(s.disk, f) == Some(content) && s.store == s.known == map[]
    ensures t.order == [] && t.refuse == {}
    ensures Passed(dir, true, s, Sync(mount.disk, mount.dirs, mount.known, memories), t)
  {
    var service := new Service();
    mount := MountWith(dir, f, content, map[]);
    s := Sync(mount.disk, mount.dirs, mount.known, service.memories);
    UnmarkedIsFree(s, f);
    ghost var s';
    memories, s', t := PassOverOneFile(service, mount, [], f);
  }

  /** A new file `x ` becomes the record `/x`, at which there is no file. */
  method BlankFileIsRenamed(dir: File, content: Content) returns (file: Option<Content>, memories: Records)
    requires ProperFile(dir)
    ensures file == None && ContentAt(memories, "/x") == Some(content) && "/x " !in memories
  {
    assert Unmarked(["x "]);
    var mount;
    ghost var s, t;
    mount, memories, s, t := PassOverNewFile(dir, ["x "], content);
    file := FileAt(mount.disk, ["x"]);
    BlankBecomes(dir, s, Sync(mount.disk, mount.dirs, mount.known, memories), t, content);
  }

  lemma BlankBecomes(dir: File, s: Sync, s': Sync, t: Turn, content: Content)
    requires OneFile(dir, s, ["x "]) && FileAt(s.disk, ["x "]) == Some(content) && s.store == s.known == map[]
    requires Passed(dir, true, s, s', t) && t.order == [] && t.refuse == {}
    ensures ContentAt(s'.store, "/x") == Some(content) && "/x " !in s'.store && ["x"] !in s'.disk
  {
    TrailingBlank();
    OtherFilesStay(dir, s, s', t, ["x "]);
    assert FileAt(s'.disk, ["x "]) == PulledFile(dir, s, t.order, ["x "]);
    MemoryPass.BlankFileIsRenamed(dir, s, s', t);
    NewRecordIs(dir, s, s', t, "/x");
    assert forall g :: g in t.files ==> g == ["x "];
  }
}
