/** What one reconcile pass does to disk, store and baseline, path by path: a three-way merge,
    as far as the path is one that the listing of local files can show. */
module MemoryPass {
  import opened Wrappers
  import opened MemoryPaths

  type Content = string

  datatype Rec = Rec(id: nat, content: Content)

  /** The store's records, and the baseline, which keeps an id and a hash. Hashes are modelled as
      the contents they identify. */
  type Records = map<Path, Rec>

  function ContentAt(m: Records, p: Path): Option<Content> {
    if p in m then Some(m[p].content) else None
  }

  function FileAt(disk: map<File, Content>, f: File): Option<Content> {
    if f in disk then Some(disk[f]) else None
  }

  // ----- one path -----

  /** The three versions of one path: the baseline, the file, and the store's record. */
  datatype Versions = Versions(base: Option<Content>, local: Option<Content>, remote: Option<Content>)

  /** The three-way merge: the local version wins exactly when it changed and the store's
      did not, or when the path is new on the disk; otherwise the store's state wins,
      absence included. A file deleted locally comes back. */
  function Merge(v: Versions): Option<Content> {
    match v.remote
    case Some(_) => if v.local.Some? && v.local != v.base && v.base == v.remote then v.local else v.remote
    case None => if v.base.Some? then None else v.local
  }

  /** The merge, in terms of who changed since the baseline. */
  lemma MergeMeans(v: Versions)
    ensures var localChanged, storeChanged := v.local.Some? && v.local != v.base, v.remote != v.base;
      && (!storeChanged && localChanged ==> Merge(v) == v.local)
      && (!storeChanged && !localChanged ==> Merge(v) == v.remote)
      && (storeChanged ==> Merge(v) == v.remote)
  {
  }

  // ----- the pull -----

  /** What a pull changes: the files, the directories it makes, the baseline, and a log of its writes. */
  datatype Place = Place(disk: map<File, Content>, dirs: set<File>, known: Records, written: seq<File>)

  function Parents(f: File): set<File> {
    set k | 0 <= k < |f| :: f[..k]
  }

  /** Nothing is in the way of writing a file: no directory has its name, no file is above it. */
  predicate CanWrite(s: Place, f: File) {
    f !in s.dirs && forall k :: 0 <= k < |f| ==> f[..k] !in s.disk
  }

  /** Files and directories form a tree below the mount directory, which exists. A name at which the
      host cannot make a file counts as a directory's. */
  ghost predicate ValidPlace(disk: map<File, Content>, dirs: set<File>) {
    && [] in dirs
    && forall f :: f in disk ==>
         && ProperFile(f) && f !in dirs
         && forall k :: 0 <= k < |f| ==> f[..k] in dirs
  }

  /** One listed record: the file takes it unless only the file changed. None when it throws. */
  function PullStep(dir: File, s: Place, p: Path, rec: Rec): Option<Place> {
    var target := Target(dir, p);
    if target.None? then None
    else
      var f, local, base := target.value, FileAt(s.disk, target.value), ContentAt(s.known, p);
      if local.Some? && local != base && Some(rec.content) == base then Some(s)
      else if local == Some(rec.content) then Some(s.(known := s.known[p := rec]))
      else if CanWrite(s, f) then
        Some(Place(s.disk[f := rec.content], s.dirs + Parents(f), s.known[p := rec], s.written + [f]))
      else None
  }

  function PullAll(dir: File, s: Place, order: seq<Path>, remote: Records): Option<Place>
    requires forall p :: p in order ==> p in remote
  {
    if order == [] then Some(s)
    else
      var before := PullAll(dir, s, order[..|order| - 1], remote);
      var p := order[|order| - 1];
      if before.None? then None else PullStep(dir, before.value, p, remote[p])
  }

  /** The store's listing gives each record once, in some order. */
  ghost predicate Listing(order: seq<Path>, remote: Records) {
    && (forall p :: p in order <==> p in remote)
    && forall i, j :: 0 <= i < j < |order| ==> order[i] != order[j]
  }

  /** What the records of a listing make of one file: the merges of those that resolve to it, one
      after another. */
  function FileAfter(dir: File, known: Records, order: seq<Path>, remote: Records, f: File, local: Option<Content>)
    : Option<Content>
  {
    if order == [] then local
    else
      var p := order[|order| - 1];
      var before := FileAfter(dir, known, order[..|order| - 1], remote, f, local);
      if Target(dir, p) == Some(f) then Merge(Versions(ContentAt(known, p), before, ContentAt(remote, p))) else before
  }

  lemma PullStepMeans(dir: File, s: Place, p: Path, rec: Rec)
    requires PullStep(dir, s, p, rec).Some?
    ensures var s' := PullStep(dir, s, p, rec).value;
      && Target(dir, p).Some?
      && (forall f :: FileAt(s'.disk, f) ==
            if Target(dir, p) == Some(f)
            then Merge(Versions(ContentAt(s.known, p), FileAt(s.disk, f), Some(rec.content)))
            else FileAt(s.disk, f))
      && (forall q :: ContentAt(s'.known, q) == if q == p then Some(rec.content) else ContentAt(s.known, q))
  {
  }

  lemma {:induction false} PullAllMeans(dir: File, s: Place, order: seq<Path>, remote: Records)
    requires forall p :: p in order ==> p in remote
    requires forall i, j :: 0 <= i < j < |order| ==> order[i] != order[j]
    requires PullAll(dir, s, order, remote).Some?
    ensures var s' := PullAll(dir, s, order, remote).value;
      && (forall f :: FileAt(s'.disk, f) == FileAfter(dir, s.known, order, remote, f, FileAt(s.disk, f)))
      && (forall p :: ContentAt(s'.known, p) == if p in order then ContentAt(remote, p) else ContentAt(s.known, p))
      && (forall p :: p in order ==> Target(dir, p).Some?)
  {
    if order != [] {
      var before, p := order[..|order| - 1], order[|order| - 1];
      PullAllMeans(dir, s, before, remote);
      PullStepMeans(dir, PullAll(dir, s, before, remote).value, p, remote[p]);
      assert order == before + [p] && p !in before;
    }
  }

  // ----- a whole pass -----

  /** Everything a pass can change. */
  datatype Sync = Sync(disk: map<File, Content>, dirs: set<File>, known: Records, store: Records)

  /** Some path left the store since the baseline and resolves to this file. */
  ghost predicate Gone(dir: File, known: Records, remote: Records, f: File) {
    exists p :: p in known && p !in remote && Target(dir, p) == Some(f)
  }

  /** A file after the pull phase. */
  ghost function PulledFile(dir: File, s: Sync, order: seq<Path>, f: File): Option<Content> {
    if Gone(dir, s.known, s.store, f) then None
    else FileAfter(dir, s.known, order, s.store, f, FileAt(s.disk, f))
  }

  /** The listing of local files shows this file under this path. */
  predicate ListedAs(disk: map<File, Content>, f: File, p: Path) {
    f in disk && !IsMarkerFile(f) && PathOf(f) == p
  }

  /** The files that the push lists, in the order in which it meets them. */
  ghost predicate FileListing(files: seq<File>, disk: map<File, Content>) {
    && (forall f :: f in files <==> f in disk && !IsMarkerFile(f))
    && forall i, j :: 0 <= i < j < |files| ==> files[i] != files[j]
  }

  /** The push asks for a record at `p` for this file, because the store listed none at the path
      under which the file is listed, and the API keeps that path as `p`. */
  predicate CreatedFor(store: Records, refuse: set<Path>, f: File, p: Path) {
    PathOf(f) !in store && PathOf(f) !in refuse && ApiPath(PathOf(f)) == Some(p)
  }

  /** The file whose request creates `p`: the first; the API refuses the others. */
  function FirstCreated(files: seq<File>, store: Records, refuse: set<Path>, p: Path): (found: Option<File>)
    ensures found.Some? ==> found.value in files && CreatedFor(store, refuse, found.value, p)
    ensures found.None? ==> forall f :: f in files ==> !CreatedFor(store, refuse, f, p)
  {
    if files == [] then None
    else
      var last := files[|files| - 1];
      assert files == files[..|files| - 1] + [last];
      var before := FirstCreated(files[..|files| - 1], store, refuse, p);
      if before.Some? then before else if CreatedFor(store, refuse, last, p) then Some(last) else None
  }

  function CreatedContent(files: seq<File>, disk: map<File, Content>, store: Records, refuse: set<Path>, p: Path)
    : Option<Content>
  {
    var f := FirstCreated(files, store, refuse, p);
    if f.Some? then FileAt(disk, f.value) else None
  }

  /** What a pass is given: the store's listing, the local listing, and the paths whose requests fail. */
  datatype Turn = Turn(order: seq<Path>, files: seq<File>, refuse: set<Path>)

  /** A pass from `s` to `s'` that ran to its end. */
  ghost predicate Passed(dir: File, writable: bool, s: Sync, s': Sync, t: Turn) {
    && Listing(t.order, s.store)
    && (forall f :: FileAt(s'.disk, f) == PulledFile(dir, s, t.order, f))
    && (forall p :: p in s.store || p in s.known ==> Target(dir, p).Some?)
    && ValidPlace(s.disk, s.dirs) && ValidPlace(s'.disk, s'.dirs)
    && s'.known == s'.store
    && if writable then Pushed(s, s', t) else s'.store == s.store
  }

  ghost predicate Pushed(s: Sync, s': Sync, t: Turn) {
    && FileListing(t.files, s'.disk)
    && (forall f :: f in s'.disk && !IsMarkerFile(f) && f != [] ==> !StartsWithDots(f[0]))
    && (forall p :: p in s.store && p in t.refuse ==> ContentAt(s'.store, p) == ContentAt(s.store, p))
    && (forall p, f :: p in s.store && p !in t.refuse && ListedAs(s'.disk, f, p) ==>
          ContentAt(s'.store, p) == Some(s'.disk[f]))
    && (forall p :: p in s.store && p !in t.refuse && (forall f :: !ListedAs(s'.disk, f, p)) ==> p !in s'.store)
    && (forall p :: p !in s.store ==>
          ContentAt(s'.store, p) == CreatedContent(t.files, s'.disk, s.store, t.refuse, p))
  }

  function VersionsAt(dir: File, s: Sync, p: Path): Versions {
    var target := Target(dir, p);
    Versions(ContentAt(s.known, p), if target.Some? then FileAt(s.disk, target.value) else None, ContentAt(s.store, p))
  }

  // ----- a pass that throws -----

  /** Likewise, but the baseline paths in `left` have not been looked at. */
  ghost predicate GoneSince(dir: File, known: Records, listed: set<Path>, remote: Records, f: File) {
    exists p :: p in known && p !in listed && p !in remote && Target(dir, p) == Some(f)
  }

  /** The pull has got as far as the first `k` listed records, and, when those are all, has dropped
      the departed paths but those in `left`. */
  ghost predicate PulledUpTo(dir: File, s: Sync, s': Sync, order: seq<Path>, k: nat, left: set<Path>) {
    && k <= |order| && (k < |order| ==> s.known.Keys <= left)
    && (forall f :: FileAt(s'.disk, f) ==
          if GoneSince(dir, s.known, left, s.store, f) then None
          else FileAfter(dir, s.known, order[..k], s.store, f, FileAt(s.disk, f)))
    && (forall p :: ContentAt(s'.known, p) ==
          if p in order[..k] then ContentAt(s.store, p)
          else if p in s.store || p in left then ContentAt(s.known, p) else None)
    && (forall p :: p in order[..k] || (p in s.known && p !in s.store && p !in left) ==> Target(dir, p).Some?)
    && ValidPlace(s.disk, s.dirs) && ValidPlace(s'.disk, s'.dirs)
  }

  /** The store's listed records when the files of `done` have been uploaded. */
  ghost predicate Updated(remote: Records, disk: map<File, Content>, done: seq<File>, refuse: set<Path>, m: Records) {
    && (forall p :: p in remote ==> p in m && m[p].id == remote[p].id)
    && (forall f :: f in done && f in disk && PathOf(f) in remote ==>
          m[PathOf(f)].content == if PathOf(f) in refuse then remote[PathOf(f)].content else disk[f])
    && (forall p :: p in remote && (forall f :: f in done ==> PathOf(f) != p) ==> m[p] == remote[p])
  }

  /** And the records created meanwhile. */
  ghost predicate Made(remote: Records, disk: map<File, Content>, done: seq<File>, refuse: set<Path>, m: Records) {
    forall p :: p !in remote ==> ContentAt(m, p) == CreatedContent(done, disk, remote, refuse, p)
  }

  ghost predicate Uploading(remote: Records, disk: map<File, Content>, done: seq<File>, refuse: set<Path>, m: Records) {
    && (forall f :: f in done ==> f in disk && ProperFile(f))
    && Updated(remote, disk, done, refuse, m) && Made(remote, disk, done, refuse, m)
  }

  /** The pull is done and the files before the `k`th have been uploaded; there the push has thrown. */
  ghost predicate PushedUpTo(dir: File, s: Sync, s': Sync, t: Turn, k: nat) {
    && PulledUpTo(dir, s, s', t.order, |t.order|, {})
    && FileListing(t.files, s'.disk)
    && k < |t.files| && t.files[k] != [] && StartsWithDots(t.files[k][0])
    && Uploading(s.store, s'.disk, t.files[..k], t.refuse, s'.store)
  }

  /** How a pass ends: each listing of the store, the pull and the push can throw. */
  datatype End = ListThrew | PullThrew(k: nat, left: set<Path>) | PushThrew(k: nat) | RelistThrew | Done

  /** A pass from `s` to `s'`, however it ended. One that threw has not replaced the baseline by the
      store's records as they are after it. */
  ghost predicate Ended(dir: File, writable: bool, s: Sync, s': Sync, t: Turn, end: End) {
    && Listing(t.order, s.store)
    && match end
       case ListThrew => s' == s
       case PullThrew(k, left) => s'.store == s.store && PulledUpTo(dir, s, s', t.order, k, left)
       case PushThrew(k) => writable && PushedUpTo(dir, s, s', t, k)
       case RelistThrew =>
         && Passed(dir, writable, s, s'.(known := s'.store), t)
         && forall p :: ContentAt(s'.known, p) == ContentAt(s.store, p)
       case Done => Passed(dir, writable, s, s', t)
  }

  // ----- when a pull throws -----

  /** The files that the records of a listing resolve to. */
  function Targets(dir: File, order: seq<Path>): set<File> {
    if order == [] then {}
    else
      var target := Target(dir, order[|order| - 1]);
      Targets(dir, order[..|order| - 1]) + if target.Some? then {target.value} else {}
  }

  /** A file that is not there yet cannot be written: a directory has its name, or a file is above it. */
  predicate Blocked(disk: map<File, Content>, dirs: set<File>, f: File) {
    f !in disk && (f in dirs || exists k :: 0 <= k < |f| && f[..k] in disk)
  }

  /** All these files can be there together. */
  ghost predicate Fits(disk: map<File, Content>, dirs: set<File>, files: set<File>) {
    && (forall f :: f in files ==> !Blocked(disk, dirs, f))
    && (forall f, g :: f in files && g in files ==> !(f < g))
  }

  /** What a pull has done to the tree when it has brought these files. */
  ghost predicate Brought(s: Place, s': Place, files: set<File>) {
    && (forall f :: f in s'.disk <==> f in s.disk || f in files)
    && (forall d :: d in s'.dirs <==> d in s.dirs || exists g :: g in files && d < g)
    && ValidPlace(s'.disk, s'.dirs)
  }

  lemma ParentsAreAbove(f: File, d: File)
    ensures d in Parents(f) <==> d < f
  {
    if d < f { assert f[..|d|] == d; }
  }

  lemma StepKeepsTree(dir: File, now: Place, p: Path, rec: Rec)
    requires ProperFile(dir) && ValidPlace(now.disk, now.dirs) && PullStep(dir, now, p, rec).Some?
    ensures var next := PullStep(dir, now, p, rec).value; ValidPlace(next.disk, next.dirs)
  {
    var f := Target(dir, p).value;
    var next := PullStep(dir, now, p, rec).value;
    TargetIsProper(dir, p);
    forall g | g in next.disk
      ensures ProperFile(g) && g !in next.dirs && forall k :: 0 <= k < |g| ==> g[..k] in next.dirs
    {
      ParentsAreAbove(f, g);
      forall k | 0 <= k < |g| ensures g[..k] in next.dirs {
        assert g == f ==> g[..k] in Parents(f);
      }
    }
  }

  lemma StepBrings(dir: File, s: Place, now: Place, files: set<File>, p: Path, rec: Rec)
    requires ProperFile(dir) && ValidPlace(s.disk, s.dirs) && Brought(s, now, files)
    requires PullStep(dir, now, p, rec).Some?
    ensures Brought(s, PullStep(dir, now, p, rec).value, files + {Target(dir, p).value})
  {
    var f := Target(dir, p).value;
    var next := PullStep(dir, now, p, rec).value;
    StepKeepsTree(dir, now, p, rec);
    forall d ensures d in next.dirs <==> d in s.dirs || exists g :: g in files + {f} && d < g {
      ParentsAreAbove(f, d);
      assert f in now.disk && d in Parents(f) ==> d in now.dirs;
      if g :| g in files && d < g { assert g in files + {f}; }
      assert f in files + {f};
    }
  }

  lemma StepThrows(dir: File, s: Place, now: Place, files: set<File>, p: Path, rec: Rec)
    requires ValidPlace(s.disk, s.dirs) && Brought(s, now, files) && Fits(s.disk, s.dirs, files)
    requires Target(dir, p).Some?
    ensures PullStep(dir, now, p, rec).Some? <==> Fits(s.disk, s.dirs, files + {Target(dir, p).value})
  {
    var f := Target(dir, p).value;
    if f in now.disk || CanWrite(now, f) {
      forall g | g in files ensures !(f < g) && !(g < f) {
        ParentsAreAbove(g, f);
        ParentsAreAbove(f, g);
      }
      assert Fits(s.disk, s.dirs, files + {f});
    } else {
      assert f in files + {f};
      if f in now.dirs {
        if f !in s.dirs {
          var g :| g in files && f < g;
          assert g in files + {f};
        }
      } else {
        var k :| 0 <= k < |f| && f[..k] in now.disk;
        assert f[..k] < f;
        if f[..k] !in s.disk { assert f[..k] in files + {f}; }
      }
    }
  }

  lemma FewerFit(disk: map<File, Content>, dirs: set<File>, files: set<File>, f: File)
    requires Fits(disk, dirs, files + {f})
    ensures Fits(disk, dirs, files)
  {
    assert forall g :: g in files ==> g in files + {f};
  }

  /** Whatever the records and the baseline hold, and in whatever order they are listed, a pull
      brings all of them exactly when none escapes the mount and their files fit into the tree. */
  lemma {:induction false} PullSucceedsWhen(dir: File, s: Place, order: seq<Path>, remote: Records)
    requires ProperFile(dir) && ValidPlace(s.disk, s.dirs) && forall p :: p in order ==> p in remote
    ensures var out := PullAll(dir, s, order, remote);
      && (out.Some? <==> (forall p :: p in order ==> Target(dir, p).Some?)
                         && Fits(s.disk, s.dirs, Targets(dir, order)))
      && (out.Some? ==> Brought(s, out.value, Targets(dir, order)))
  {
    if order != [] {
      var before, p := order[..|order| - 1], order[|order| - 1];
      assert order == before + [p];
      PullSucceedsWhen(dir, s, before, remote);
      if Target(dir, p).Some? {
        var now := PullAll(dir, s, before, remote);
        if now.Some? {
          StepThrows(dir, s, now.value, Targets(dir, before), p, remote[p]);
          if PullStep(dir, now.value, p, remote[p]).Some? {
            StepBrings(dir, s, now.value, Targets(dir, before), p, remote[p]);
          }
        } else if Fits(s.disk, s.dirs, Targets(dir, order)) {
          FewerFit(s.disk, s.dirs, Targets(dir, before), Target(dir, p).value);
        }
      }
    }
  }

  /** When the pull phase throws: a path of store or baseline escapes the mount, or a record's file,
      not there yet, meets a directory of its name or a file above it, or lies above another record's. */
  ghost predicate PullThrows(dir: File, s: Sync) {
    || (exists p :: (p in s.store || p in s.known) && Target(dir, p).None?)
    || (exists p :: p in s.store && Target(dir, p).Some? && Blocked(s.disk, s.dirs, Target(dir, p).value))
    || (exists p, q :: p in s.store && q in s.store && Target(dir, p).Some? && Target(dir, q).Some?
                       && Target(dir, p).value < Target(dir, q).value)
  }

  lemma {:induction false} InTargets(dir: File, order: seq<Path>, f: File)
    ensures f in Targets(dir, order) <==> exists p :: p in order && Target(dir, p) == Some(f)
  {
    if order != [] {
      var before, q := order[..|order| - 1], order[|order| - 1];
      assert order == before + [q];
      InTargets(dir, before, f);
    }
  }

  lemma FitsMeans(dir: File, s: Sync, order: seq<Path>)
    requires Listing(order, s.store)
    ensures PullThrows(dir, s) <==>
            || (exists p :: (p in s.store || p in s.known) && Target(dir, p).None?)
            || !Fits(s.disk, s.dirs, Targets(dir, order))
  {
    var files := Targets(dir, order);
    forall f ensures f in files <==> exists p :: p in s.store && Target(dir, p) == Some(f) {
      InTargets(dir, order, f);
    }
    if !Fits(s.disk, s.dirs, files) {
      if f :| f in files && Blocked(s.disk, s.dirs, f) {
        var p :| p in s.store && Target(dir, p) == Some(f);
      } else {
        var f, g :| f in files && g in files && f < g;
        var p :| p in s.store && Target(dir, p) == Some(f);
        var q :| q in s.store && Target(dir, q) == Some(g);
      }
    }
  }

  /** What a pass has to push throws as well, exactly on a listed file whose first name starts with two dots. */
  ghost predicate PushThrows(s: Sync) {
    exists f :: f in s.disk && !IsMarkerFile(f) && f != [] && StartsWithDots(f[0])
  }

  /** A record never brings or takes such a file, so the pull does not change whether there is one. */
  lemma {:induction false} DottedFileStays(dir: File, s: Sync, order: seq<Path>, f: File)
    requires f != [] && StartsWithDots(f[0])
    ensures FileAfter(dir, s.known, order, s.store, f, FileAt(s.disk, f)) == FileAt(s.disk, f)
    ensures PulledFile(dir, s, order, f) == FileAt(s.disk, f)
  {
    if order != [] { DottedFileStays(dir, s, order[..|order| - 1], f); }
    assert forall p :: Target(dir, p) != Some(f);
  }

  // ----- the merge, on the disk -----

  /** No other path of store or baseline resolves to the file of `p`. */
  ghost predicate Alone(dir: File, s: Sync, p: Path) {
    forall q :: (q in s.store || q in s.known) && q != p ==> Target(dir, q) != Target(dir, p)
  }

  lemma {:induction false} FileAfterAlone(dir: File, s: Sync, order: seq<Path>, p: Path, f: File,
                                          local: Option<Content>)
    requires Target(dir, p) == Some(f)
    requires forall q :: q in order && q != p ==> Target(dir, q) != Some(f)
    requires forall i, j :: 0 <= i < j < |order| ==> order[i] != order[j]
    ensures FileAfter(dir, s.known, order, s.store, f, local)
         == if p in order then Merge(Versions(ContentAt(s.known, p), local, ContentAt(s.store, p))) else local
  {
    if order != [] {
      var before, q := order[..|order| - 1], order[|order| - 1];
      assert order == before + [q] && q !in before;
      FileAfterAlone(dir, s, before, p, f, local);
    }
  }

  /** Where no two paths share a file, the file becomes the merge. */
  lemma FileReachesMerge(dir: File, writable: bool, s: Sync, s': Sync, t: Turn, p: Path)
    requires Passed(dir, writable, s, s', t) && Alone(dir, s, p)
    ensures VersionsAt(dir, s', p).local == Merge(VersionsAt(dir, s, p))
  {
    var target := Target(dir, p);
    if target.Some? {
      var f := target.value;
      FileAfterAlone(dir, s, t.order, p, f, FileAt(s.disk, f));
      assert FileAt(s'.disk, f) == PulledFile(dir, s, t.order, f);
      if p in s.known && p !in s.store {
        assert Gone(dir, s.known, s.store, f);
      }
    }
  }

  // ----- the merge, in the store -----

  /** The push can show the path: it is spelled as its file is listed, the file is not a marker
      file, and a path new to the store is one that the API keeps as it is. */
  predicate Shown(dir: File, s: Sync, p: Path) {
    && Canonical(dir, p) && !IsMarkerFile(Target(dir, p).value)
    && (p in s.store || ApiPath(p) == Some(p))
  }

  /** This file is there after the pull, is listed under another path, and is asked for at `p`. */
  ghost predicate TwinFile(dir: File, s: Sync, t: Turn, f: File, p: Path) {
    && PulledFile(dir, s, t.order, f).Some? && !IsMarkerFile(f)
    && PathOf(f) != p && CreatedFor(s.store, t.refuse, f, p)
  }

  ghost predicate HasTwin(dir: File, s: Sync, t: Turn, p: Path) {
    p !in s.store && exists f :: TwinFile(dir, s, t, f, p)
  }

  lemma ListedIsCanonical(dir: File, s': Sync, f: File, p: Path)
    requires ValidPlace(s'.disk, s'.dirs) && ListedAs(s'.disk, f, p) && !StartsWithDots(f[0])
    ensures Target(dir, p) == Some(f) && Canonical(dir, p)
  {
    TargetOfPath(dir, f);
  }

  /** A path that the store had not listed gets what the first file asked for at it holds. */
  lemma NewRecordIs(dir: File, s: Sync, s': Sync, t: Turn, p: Path)
    requires Passed(dir, true, s, s', t) && p !in s.store
    ensures var f := FirstCreated(t.files, s.store, t.refuse, p);
      && ContentAt(s'.store, p) == (if f.Some? then PulledFile(dir, s, t.order, f.value) else None)
      && (f.Some? ==> PulledFile(dir, s, t.order, f.value).Some? && !IsMarkerFile(f.value))
      && (f.Some? && PathOf(f.value) == p ==> Shown(dir, s, p) && Target(dir, p) == f)
      && (f.Some? && PathOf(f.value) != p ==> TwinFile(dir, s, t, f.value, p))
  {
    var f := FirstCreated(t.files, s.store, t.refuse, p);
    if f.Some? {
      assert FileAt(s'.disk, f.value) == PulledFile(dir, s, t.order, f.value);
      if PathOf(f.value) == p { ListedIsCanonical(dir, s', f.value, p); }
    }
  }

  /** A path that can be shown, or has a twin, is asked for. */
  lemma NewRecordIsThere(dir: File, s: Sync, s': Sync, t: Turn, p: Path)
    requires Passed(dir, true, s, s', t) && p !in s.store && p !in t.refuse
    ensures FirstCreated(t.files, s.store, t.refuse, p).Some?
       <==> (Shown(dir, s, p) && VersionsAt(dir, s', p).local.Some?) || HasTwin(dir, s, t, p)
  {
    NewRecordIs(dir, s, s', t, p);
    if Shown(dir, s, p) && VersionsAt(dir, s', p).local.Some? {
      assert CreatedFor(s.store, t.refuse, Target(dir, p).value, p);
    }
    if f :| TwinFile(dir, s, t, f, p) {
      assert FileAt(s'.disk, f) == PulledFile(dir, s, t.order, f);
      assert f in t.files && CreatedFor(s.store, t.refuse, f, p);
    }
    var f := FirstCreated(t.files, s.store, t.refuse, p);
    if f.Some? {
      assert FileAt(s'.disk, f.value) == PulledFile(dir, s, t.order, f.value);
    }
  }

  /** After a writable pass whose request for `p` succeeds, the store has at `p` the file's version,
      if `p` can be shown, and nothing otherwise; unless another file is created there. */
  lemma StoreFollowsDisk(dir: File, s: Sync, s': Sync, t: Turn, p: Path)
    requires Passed(dir, true, s, s', t) && p !in t.refuse && !HasTwin(dir, s, t, p)
    ensures ContentAt(s'.store, p) == if Shown(dir, s, p) then VersionsAt(dir, s', p).local else None
  {
    if p in s.store {
      if f :| ListedAs(s'.disk, f, p) {
        ListedIsCanonical(dir, s', f, p);
      }
      if Shown(dir, s, p) && VersionsAt(dir, s', p).local.Some? {
        assert ListedAs(s'.disk, Target(dir, p).value, p);
      }
    } else {
      NewRecordIs(dir, s, s', t, p);
      NewRecordIsThere(dir, s, s', t, p);
      var f := FirstCreated(t.files, s.store, t.refuse, p);
      if f.Some? { assert FileAt(s'.disk, f.value) == PulledFile(dir, s, t.order, f.value); }
    }
  }

  /** A path whose own request fails keeps the store's version, unless another file is created there. */
  lemma RefusedStays(dir: File, s: Sync, s': Sync, t: Turn, p: Path)
    requires Passed(dir, true, s, s', t) && p in t.refuse && !HasTwin(dir, s, t, p)
    ensures ContentAt(s'.store, p) == ContentAt(s.store, p)
  {
    if p !in s.store { NewRecordIs(dir, s, s', t, p); }
  }

  /** After a writable pass whose request for `p` succeeds, and where no two paths share the file,
      the store holds the merge if and only if: for a listed record, its path can be shown; for a
      new path at which no other file is created, the path can be shown or the merge is absent; and
      otherwise the first file created there happens to hold the merge. */
  lemma StoreReachesMerge(dir: File, s: Sync, s': Sync, t: Turn, p: Path)
    requires Passed(dir, true, s, s', t) && p !in t.refuse && Alone(dir, s, p)
    ensures var merge := Merge(VersionsAt(dir, s, p));
      ContentAt(s'.store, p) == merge <==>
        if !HasTwin(dir, s, t, p) then Shown(dir, s, p) || merge == None
        else PulledFile(dir, s, t.order, FirstCreated(t.files, s.store, t.refuse, p).value) == merge
    ensures HasTwin(dir, s, t, p) ==> FirstCreated(t.files, s.store, t.refuse, p).Some?
  {
    FileReachesMerge(dir, true, s, s', t, p);
    if HasTwin(dir, s, t, p) {
      NewRecordIs(dir, s, s', t, p);
      NewRecordIsThere(dir, s, s', t, p);
    } else {
      StoreFollowsDisk(dir, s, s', t, p);
    }
  }

  /** Where another file is created at a path whose own merge is absent, the store never holds the
      merge: it holds what some such file holds. */
  lemma TwinTakesPath(dir: File, s: Sync, s': Sync, t: Turn, p: Path)
    requires Passed(dir, true, s, s', t) && p !in t.refuse && HasTwin(dir, s, t, p)
    ensures exists f :: PulledFile(dir, s, t.order, f).Some? && CreatedFor(s.store, t.refuse, f, p)
                        && ContentAt(s'.store, p) == PulledFile(dir, s, t.order, f)
    ensures Alone(dir, s, p) && Merge(VersionsAt(dir, s, p)) == None ==>
              ContentAt(s'.store, p) != Merge(VersionsAt(dir, s, p))
  {
    NewRecordIs(dir, s, s', t, p);
    NewRecordIsThere(dir, s, s', t, p);
    assert CreatedFor(s.store, t.refuse, FirstCreated(t.files, s.store, t.refuse, p).value, p);
  }

  // ----- paths that share a file -----

  lemma {:induction false} FileAfterSome(dir: File, s: Sync, order: seq<Path>, p: Path, f: File, local: Option<Content>)
    requires p in order && Target(dir, p) == Some(f) && forall q :: q in order ==> q in s.store
    ensures FileAfter(dir, s.known, order, s.store, f, local).Some?
  {
    var before, q := order[..|order| - 1], order[|order| - 1];
    assert order == before + [q];
    if q != p { FileAfterSome(dir, s, before, p, f, local); }
  }

  /** Whatever else resolves to its file, a record outlives a writable pass whose request for it
      succeeds if and only if its path is spelled as the file is listed, the file is no marker
      file, and no path that left the store takes the file with it; and then it holds what the
      pull made of the file. */
  lemma RecordSurvives(dir: File, s: Sync, s': Sync, t: Turn, p: Path)
    requires Passed(dir, true, s, s', t) && p in s.store && p !in t.refuse
    ensures var f := Target(dir, p).value;
      && (p in s'.store <==> Canonical(dir, p) && !IsMarkerFile(f) && !Gone(dir, s.known, s.store, f))
      && (p in s'.store ==> Some(s'.store[p].content) == PulledFile(dir, s, t.order, f))
  {
    var f := Target(dir, p).value;
    StoreFollowsDisk(dir, s, s', t, p);
    FileAfterSome(dir, s, t.order, p, f, FileAt(s.disk, f));
    assert FileAt(s'.disk, f) == PulledFile(dir, s, t.order, f);
  }

  /** So of records that resolve to one file at most one outlives such a pass. */
  lemma OneRecordPerFile(dir: File, s: Sync, s': Sync, t: Turn, p: Path, q: Path)
    requires Passed(dir, true, s, s', t)
    requires p in s.store && q in s.store && p !in t.refuse && q !in t.refuse && Target(dir, p) == Target(dir, q)
    requires p in s'.store && q in s'.store
    ensures p == q
  {
    RecordSurvives(dir, s, s', t, p);
    RecordSurvives(dir, s, s', t, q);
  }

  /** A record alone on its file, but under another spelling than the file is listed by, moves: it
      is deleted, and its merged content is created again under the file's own path. */
  lemma AliasMoves(dir: File, s: Sync, s': Sync, t: Turn, p: Path)
    requires Passed(dir, true, s, s', t)
    requires p in s.store && p !in t.refuse && Alone(dir, s, p) && !Canonical(dir, p)
    requires var own := PathOf(Target(dir, p).value);
      !IsMarkerFile(Target(dir, p).value) && own !in t.refuse && ApiPath(own) == Some(own) && !HasTwin(dir, s, t, own)
    ensures var own := PathOf(Target(dir, p).value);
      && p !in s'.store && own !in s.store
      && ContentAt(s'.store, own) == Merge(VersionsAt(dir, s, p))
  {
    var f := Target(dir, p).value;
    FileReachesMerge(dir, true, s, s', t, p);
    assert f in s'.disk;
    TargetOfPath(dir, f);
    StoreFollowsDisk(dir, s, s', t, p);
    StoreFollowsDisk(dir, s, s', t, PathOf(f));
  }

  // ----- other surprises -----

  /** A record whose file is named like a marker file, at any depth, is deleted, in sync or not. */
  lemma MarkerRecordIsLost(dir: File, s: Sync, s': Sync, t: Turn, p: Path)
    requires Passed(dir, true, s, s', t) && p in s.store && p !in t.refuse
    requires var f := Target(dir, p).value; f != [] && f[|f| - 1] == ".anthropic-memory-store"
    ensures p !in s'.store
  {
    RecordSurvives(dir, s, s', t, p);
  }

  /** A file whose name ends in a blank is created without the blank, as if it were another file. */
  lemma BlankFileIsRenamed(dir: File, s: Sync, s': Sync, t: Turn)
    requires Passed(dir, true, s, s', t) && ["x "] in s'.disk
    requires "/x " !in t.refuse && "/x " !in s.store && "/x" !in s.store
    ensures "/x" in s'.store && "/x " !in s'.store
  {
    TrailingBlank();
    assert !IsMarkerFile(["x "]) && CreatedFor(s.store, t.refuse, ["x "], "/x");
    var f := FirstCreated(t.files, s.store, t.refuse, "/x");
    assert f.Some? by { assert ["x "] in t.files; }
    var g := FirstCreated(t.files, s.store, t.refuse, "/x ");
    if g.Some? { ApiPathHasNoBlanks(PathOf(g.value)); }
  }

  /** While the store lists `/a` and `/a/b`, both of which the API accepts, every pull of every
      mount throws. */
  lemma NestedRecordsStopEveryPull(dir: File, s: Sync)
    requires "/a" in s.store && "/a/b" in s.store
    ensures ApiPath("/a") == Some("/a") && ApiPath("/a/b") == Some("/a/b")
    ensures PullThrows(dir, s)
  {
    NestedExample();
    TargetOfPath(dir, ["a"]);
    TargetOfPath(dir, ["a", "b"]);
    assert Target(dir, "/a").value < Target(dir, "/a/b").value;
  }
}
