/** The two spellings of a memory: the path under which the store's API keeps it, and the file
    inside the mount that a worker resolves that path to. */
module MemoryPaths {
  import opened Wrappers
  import opened Basics

  type Path = string

  /** A file by its names from the mount directory down; [] is the directory itself. */
  type File = seq<string>

  const MARKER_FILE := ".anthropic-memory-store"

  // ----- the API's paths -----

  /** What `trim` removes: white space and line terminators. */
  predicate IsBlank(c: char) {
    var n := c as int;
    || 9 <= n <= 13 || n == 32 || n == 160 || n == 0x1680 || 0x2000 <= n <= 0x200A
    || n == 0x2028 || n == 0x2029 || n == 0x202F || n == 0x205F || n == 0x3000 || n == 0xFEFF
  }

  function TrimStart(s: string): string {
    if s != "" && IsBlank(s[0]) then TrimStart(s[1..]) else s
  }

  function TrimEnd(s: string): string {
    if s != "" && IsBlank(s[|s| - 1]) then TrimEnd(s[..|s| - 1]) else s
  }

  /** Runs of slashes become one. */
  function Collapse(s: string): string {
    if s == "" then ""
    else if s[0] == '/' && |s| > 1 && s[1] == '/' then Collapse(s[1..])
    else [s[0]] + Collapse(s[1..])
  }

  /** The path a memory is created under, when the API accepts the given one. */
  function ApiPath(given: string): Option<Path> {
    var trimmed := TrimEnd(TrimStart(given));
    if trimmed == "" || trimmed[0] != '/' then None
    else
      var path := Collapse(trimmed);
      if path == "/" || (path != "" && path[|path| - 1] == '/') then None else Some(path)
  }

  // ----- files -----

  function Segments(p: string): (segments: seq<string>)
    ensures |segments| > 0
  {
    if p == "" then [""]
    else
      var rest := Segments(p[1..]);
      if p[0] == '/' then [""] + rest else [[p[0]] + rest[0]] + rest[1..]
  }

  /** `resolve`: empty and "." segments stay, ".." goes up. */
  function Walk(at: File, segments: seq<string>): File
    decreases |segments|
  {
    if segments == [] then at
    else
      var name := segments[0];
      Walk(if name == "" || name == "." then at
           else if name == ".." then (if at == [] then [] else at[..|at| - 1])
           else at + [name], segments[1..])
  }

  predicate StartsWithDots(name: string) {
    |name| >= 2 && name[0] == '.' && name[1] == '.'
  }

  /** The file a memory path names inside the mount, unless it escapes the mount. A relative
      path that starts with two dots counts as escaping, whatever follows them. */
  function Target(dir: File, p: Path): Option<File> {
    var at := Walk(dir, Segments("." + p));
    if dir <= at && (|at| == |dir| || !StartsWithDots(at[|dir|])) then Some(at[|dir|..]) else None
  }

  /** The path under which the listing of local files shows a file. */
  function PathOf(f: File): Path {
    if f == [] then "" else PathOf(f[..|f| - 1]) + (['/'] + f[|f| - 1])
  }

  predicate Proper(name: string) {
    name != "" && name != "." && name != ".." && '/' !in name
  }

  predicate ProperFile(f: File) {
    forall k :: 0 <= k < |f| ==> Proper(f[k])
  }

  predicate IsMarkerFile(f: File) {
    f != [] && f[|f| - 1] == MARKER_FILE
  }

  /** The path is spelled as the listing of local files would spell its file. */
  predicate Canonical(dir: File, p: Path) {
    Target(dir, p).Some? && Target(dir, p).value != [] && PathOf(Target(dir, p).value) == p
  }

  // ----- how they fit together -----

  lemma {:induction false} SegmentsOfPlain(name: string)
    requires '/' !in name
    ensures Segments(name) == [name]
    decreases |name|
  {
    if name != "" {
      SegmentsOfPlain(name[1..]);
      assert [name[0]] + name[1..] == name;
    }
  }

  lemma {:induction false} SegmentsInTwo(p: string, name: string)
    requires '/' !in name
    ensures Segments(p + (['/'] + name)) == Segments(p) + [name]
    decreases |p|
  {
    var whole := p + (['/'] + name);
    if p == "" {
      assert whole == ['/'] + name && whole[1..] == name;
      SegmentsOfPlain(name);
    } else {
      assert whole[1..] == p[1..] + (['/'] + name);
      SegmentsInTwo(p[1..], name);
    }
  }

  lemma {:induction false} SegmentsOfFile(f: File)
    requires ProperFile(f)
    ensures Segments("." + PathOf(f)) == ["."] + f
    decreases |f|
  {
    if f == [] {
      SegmentsOfPlain(".");
      assert "." + "" == ".";
    } else {
      var before, name := f[..|f| - 1], f[|f| - 1];
      SegmentsOfFile(before);
      Regroup(".", PathOf(before), ['/'] + name);
      SegmentsInTwo("." + PathOf(before), name);
      Regroup(["."], before, [name]);
      assert before + [name] == f;
    }
  }

  lemma {:induction false} WalkDown(at: File, f: File)
    requires ProperFile(f)
    ensures Walk(at, f) == at + f
    decreases |f|
  {
    if f != [] {
      assert Proper(f[0]) && forall k :: 0 <= k < |f[1..]| ==> f[1..][k] == f[k + 1];
      WalkDown(at + [f[0]], f[1..]);
      assert at + [f[0]] + f[1..] == at + f;
    }
  }

  /** A listed path resolves back to its file, unless its first name starts with two dots. */
  lemma TargetOfPath(dir: File, f: File)
    requires ProperFile(f) && f != []
    ensures Target(dir, PathOf(f)) == if StartsWithDots(f[0]) then None else Some(f)
  {
    SegmentsOfFile(f);
    assert (["."] + f)[1..] == f;
    WalkDown(dir, f);
    assert (dir + f)[|dir|..] == f;
  }

  lemma PathOfInjective(f: File, g: File)
    requires ProperFile(f) && ProperFile(g) && PathOf(f) == PathOf(g)
    ensures f == g
  {
    SegmentsOfFile(f);
    SegmentsOfFile(g);
    assert (["."] + f)[1..] == f && (["."] + g)[1..] == g;
  }

  lemma {:induction false} SegmentsHaveNoSlash(p: string)
    ensures forall k :: 0 <= k < |Segments(p)| ==> '/' !in Segments(p)[k]
    decreases |p|
  {
    if p != "" { SegmentsHaveNoSlash(p[1..]); }
  }

  lemma {:induction false} WalkIsProper(at: File, segments: seq<string>)
    requires ProperFile(at) && forall k :: 0 <= k < |segments| ==> '/' !in segments[k]
    ensures ProperFile(Walk(at, segments))
    decreases |segments|
  {
    if segments != [] {
      var name := segments[0];
      WalkIsProper(if name == "" || name == "." then at
                   else if name == ".." then (if at == [] then [] else at[..|at| - 1])
                   else at + [name], segments[1..]);
    }
  }

  lemma TargetIsProper(dir: File, p: Path)
    requires ProperFile(dir) && Target(dir, p).Some?
    ensures ProperFile(Target(dir, p).value)
  {
    SegmentsHaveNoSlash("." + p);
    WalkIsProper(dir, Segments("." + p));
  }

  // ----- spellings that do not come back -----

  /** A path with a dot segment between two names. */
  function Dotted(a: string, b: string): Path {
    PathOf([a]) + (['/'] + ".") + (['/'] + b)
  }

  /** It names the file that the path without the dot segment names, and is not how that file
      is listed. */
  lemma DottedIsAnAlias(dir: File, a: string, b: string)
    requires Proper(a) && Proper(b) && !StartsWithDots(a)
    ensures Target(dir, Dotted(a, b)) == Some([a, b]) == Target(dir, PathOf([a, b]))
    ensures Dotted(a, b) != PathOf([a, b])
  {
    SegmentsOfFile([a]);
    var p := "." + PathOf([a]);
    SegmentsInTwo(p, ".");
    SegmentsInTwo(p + (['/'] + "."), b);
    Regroup(".", PathOf([a]), ['/'] + ".");
    Regroup(".", PathOf([a]) + (['/'] + "."), ['/'] + b);
    var segments := [".", a, ".", b];
    assert Segments("." + Dotted(a, b)) == segments;
    assert segments[1..] == [a, ".", b] && [a, ".", b][1..] == [".", b] && [".", b][1..] == [b] && [b][1..] == [];
    assert dir + [a] + [b] == dir + [a, b] && (dir + [a, b])[|dir|..] == [a, b];
    assert Walk(dir, segments) == Walk(dir, [a, ".", b]) == Walk(dir + [a], [".", b]);
    assert Walk(dir + [a], [".", b]) == Walk(dir + [a], [b]) == Walk(dir + [a] + [b], []);
    TargetOfPath(dir, [a, b]);
    SegmentsOfFile([a, b]);
    assert |Segments("." + PathOf([a, b]))| == 3;
  }

  lemma DottedExample()
    ensures Dotted("a", "b") == "/a/./b" && PathOf(["a", "b"]) == "/a/b"
  {
    assert PathOf([]) == "" && ["a"][..0] == [];
    assert PathOf(["a"]) == "" + (['/'] + "a") == "/a";
    assert ["a", "b"][..1] == ["a"];
    assert PathOf(["a", "b"]) == "/a" + (['/'] + "b") == "/a/b";
  }

  /** The API accepts either as it stands. */
  lemma DottedIsAccepted()
    ensures ApiPath("/a/./b") == Some("/a/./b") && ApiPath("/a/b") == Some("/a/b")
  {
    assert TrimStart("/a/./b") == "/a/./b" == TrimEnd("/a/./b");
    assert Collapse("/a/./b") == "/a/./b";
    assert TrimStart("/a/b") == "/a/b" == TrimEnd("/a/b");
    assert Collapse("/a/b") == "/a/b";
  }

  lemma NestedExample()
    ensures PathOf(["a"]) == "/a" && PathOf(["a", "b"]) == "/a/b"
    ensures ApiPath("/a") == Some("/a") && ApiPath("/a/b") == Some("/a/b")
  {
    DottedExample();
    DottedIsAccepted();
    assert ["a"][..0] == [];
    assert PathOf(["a"]) == "" + (['/'] + "a") == "/a";
    assert TrimStart("/a") == "/a" == TrimEnd("/a");
    assert Collapse("/a") == "/a";
  }

  /** A file whose name ends in a blank is listed under a path that the API keeps differently. */
  lemma TrailingBlank()
    ensures PathOf(["x "]) == "/x " && ApiPath("/x ") == Some("/x")
  {
    assert ["x "][..0] == [];
    assert PathOf(["x "]) == "" + (['/'] + "x ") == "/x ";
    assert TrimStart("/x ") == "/x ";
    assert "/x "[..2] == "/x";
    assert TrimEnd("/x") == "/x";
    assert TrimEnd("/x ") == "/x";
    assert Collapse("/x") == "/x";
  }

  lemma {:induction false} TrimEndHasNoBlank(s: string)
    ensures var t := TrimEnd(s); t != "" ==> !IsBlank(t[|t| - 1])
    decreases |s|
  {
    if s != "" && IsBlank(s[|s| - 1]) { TrimEndHasNoBlank(s[..|s| - 1]); }
  }

  lemma {:induction false} CollapseKeepsEnd(s: string)
    requires s != ""
    ensures Collapse(s) != "" && Collapse(s)[|Collapse(s)| - 1] == s[|s| - 1]
    decreases |s|
  {
    if |s| > 1 { CollapseKeepsEnd(s[1..]); }
  }

  /** No path that the API keeps ends in a blank. */
  lemma ApiPathHasNoBlanks(given: string)
    ensures var path := ApiPath(given);
      path.Some? ==> path.value != "" && !IsBlank(path.value[|path.value| - 1])
  {
    var trimmed := TrimEnd(TrimStart(given));
    TrimEndHasNoBlank(TrimStart(given));
    if trimmed != "" { CollapseKeepsEnd(trimmed); }
  }

  // ----- which paths the API keeps -----

  /** The blanks, one by one. */
  lemma BlanksAre(c: char)
    ensures IsBlank(c) <==>
            c as int in {9, 10, 11, 12, 13, 32, 0xA0, 0x1680, 0x2000, 0x2001, 0x2002, 0x2003, 0x2004, 0x2005, 0x2006,
                         0x2007, 0x2008, 0x2009, 0x200A, 0x2028, 0x2029, 0x202F, 0x205F, 0x3000, 0xFEFF}
  {
  }

  predicate AllBlank(s: string) {
    forall i :: 0 <= i < |s| ==> IsBlank(s[i])
  }

  lemma {:induction false} TrimStartIs(s: string) returns (head: string)
    ensures s == head + TrimStart(s) && AllBlank(head)
    ensures TrimStart(s) != "" ==> !IsBlank(TrimStart(s)[0])
    decreases |s|
  {
    if s != "" && IsBlank(s[0]) {
      var rest := TrimStartIs(s[1..]);
      head := [s[0]] + rest;
      assert s == [s[0]] + s[1..];
    } else {
      head := "";
    }
  }

  lemma {:induction false} TrimEndIs(s: string) returns (tail: string)
    ensures s == TrimEnd(s) + tail && AllBlank(tail)
    ensures TrimEnd(s) != "" ==> !IsBlank(TrimEnd(s)[|TrimEnd(s)| - 1])
    decreases |s|
  {
    if s != "" && IsBlank(s[|s| - 1]) {
      var rest := TrimEndIs(s[..|s| - 1]);
      tail := rest + [s[|s| - 1]];
      assert s == s[..|s| - 1] + [s[|s| - 1]];
    } else {
      tail := "";
    }
  }

  predicate NoDoubleSlash(s: string) {
    forall i :: 0 <= i < |s| - 1 ==> s[i] != '/' || s[i + 1] != '/'
  }

  lemma {:induction false} CollapseIs(s: string)
    ensures NoDoubleSlash(Collapse(s)) && (NoDoubleSlash(s) <==> Collapse(s) == s)
    ensures s != "" ==> Collapse(s) != "" && Collapse(s)[0] == s[0]
    decreases |s|
  {
    if s != "" {
      CollapseIs(s[1..]);
      if NoDoubleSlash(s) { assert s == [s[0]] + s[1..]; }
    }
  }

  /** A path as the API keeps it: absolute, without blanks at its end, double slashes, or a slash at
      its end. */
  predicate Normal(p: Path) {
    |p| > 1 && p[0] == '/' && NoDoubleSlash(p) && p[|p| - 1] != '/' && !IsBlank(p[|p| - 1])
  }

  lemma KeptIsNormal(given: string)
    ensures ApiPath(given).Some? ==> Normal(ApiPath(given).value)
  {
    CollapseIs(TrimEnd(TrimStart(given)));
    ApiPathHasNoBlanks(given);
  }

  /** A path is kept as it stands exactly when it is normal, and what is kept is normal. */
  lemma KeptExactlyWhen(p: Path)
    ensures ApiPath(p) == Some(p) <==> Normal(p)
    ensures ApiPath(p).Some? ==> Normal(ApiPath(p).value)
  {
    KeptIsNormal(p);
    if Normal(p) {
      assert TrimStart(p) == p && TrimEnd(p) == p;
      CollapseIs(p);
    }
  }

  /** The API refuses exactly what, trimmed, is empty, not absolute, or ends with a slash. */
  lemma RefusedExactlyWhen(given: string) returns (head: string, trimmed: string, tail: string)
    ensures given == head + trimmed + tail && AllBlank(head) && AllBlank(tail)
    ensures trimmed != "" ==> !IsBlank(trimmed[0]) && !IsBlank(trimmed[|trimmed| - 1])
    ensures ApiPath(given).None? <==> trimmed == "" || trimmed[0] != '/' || trimmed[|trimmed| - 1] == '/'
  {
    head := TrimStartIs(given);
    tail := TrimEndIs(TrimStart(given));
    trimmed := TrimEnd(TrimStart(given));
    CollapseIs(trimmed);
    if trimmed != "" {
      CollapseKeepsEnd(trimmed);
      assert TrimStart(given)[0] == trimmed[0];
    }
  }

  lemma NameIsAppended(path: Path, name: string)
    requires Proper(name) && NoDoubleSlash(path) && (path != "" ==> path[|path| - 1] != '/')
    ensures NoDoubleSlash(path + (['/'] + name))
  {
  }

  lemma {:induction false} PathOfHasNoDoubleSlash(f: File)
    requires ProperFile(f)
    ensures NoDoubleSlash(PathOf(f)) && (f != [] ==> |PathOf(f)| > 1 && PathOf(f)[0] == '/')
    ensures f != [] ==> PathOf(f)[|PathOf(f)| - 1] == f[|f| - 1][|f[|f| - 1]| - 1] != '/'
    decreases |f|
  {
    if f != [] {
      var before, name := f[..|f| - 1], f[|f| - 1];
      assert Proper(name);
      PathOfHasNoDoubleSlash(before);
      NameIsAppended(PathOf(before), name);
    }
  }

  /** So of the paths under which files are listed the API keeps all as they stand but those whose
      name ends in a blank. */
  lemma ListedPathIsKept(f: File)
    requires ProperFile(f) && f != []
    ensures var name := f[|f| - 1];
      name != "" && (ApiPath(PathOf(f)) == Some(PathOf(f)) <==> !IsBlank(name[|name| - 1]))
  {
    assert Proper(f[|f| - 1]);
    PathOfHasNoDoubleSlash(f);
    KeptExactlyWhen(PathOf(f));
  }

  // ----- paths that go up -----

  /** A name that only begins with two dots counts as going up as well. */
  lemma DottedNameEscapes(dir: File, rest: string)
    requires rest != "" && '/' !in rest
    ensures Proper(['.', '.'] + rest) && Target(dir, PathOf([['.', '.'] + rest])) == None
  {
    TargetOfPath(dir, [['.', '.'] + rest]);
  }

  function Raised(a: string, b: string): Path {
    PathOf([a]) + (['/'] + "..") + (['/'] + b)
  }

  /** A segment of two dots takes back the one before it. */
  lemma DotDotGoesUp(dir: File, a: string, b: string)
    requires Proper(a) && Proper(b) && !StartsWithDots(b)
    ensures Target(dir, Raised(a, b)) == Some([b])
  {
    SegmentsOfFile([a]);
    var p := "." + PathOf([a]);
    SegmentsInTwo(p, "..");
    SegmentsInTwo(p + (['/'] + ".."), b);
    Regroup(".", PathOf([a]), ['/'] + "..");
    Regroup(".", PathOf([a]) + (['/'] + ".."), ['/'] + b);
    var segments := [".", a, "..", b];
    assert Segments("." + Raised(a, b)) == segments;
    assert segments[1..] == [a, "..", b] && [a, "..", b][1..] == ["..", b] && ["..", b][1..] == [b] && [b][1..] == [];
    assert (dir + [a])[..|dir + [a]| - 1] == dir && (dir + [b])[|dir|..] == [b];
    assert Walk(dir, segments) == Walk(dir, [a, "..", b]) == Walk(dir + [a], ["..", b]);
    assert Walk(dir + [a], ["..", b]) == Walk(dir, [b]) == Walk(dir + [b], []);
  }

  function RaisedOut(b: string): Path {
    (['/'] + "..") + (['/'] + b)
  }

  /** And above the mount it escapes, unless it comes back to it by its name. */
  lemma DotDotEscapes(dir: File, b: string)
    requires dir != [] && Proper(b)
    ensures Target(dir, RaisedOut(b)) == if b == dir[|dir| - 1] then Some([]) else None
  {
    SegmentsOfPlain(".");
    SegmentsInTwo(".", "..");
    SegmentsInTwo("." + (['/'] + ".."), b);
    Regroup(".", ['/'] + "..", ['/'] + b);
    var segments, up := [".", "..", b], dir[..|dir| - 1];
    assert Segments("." + RaisedOut(b)) == segments;
    assert segments[1..] == ["..", b] && ["..", b][1..] == [b] && [b][1..] == [];
    assert Walk(dir, segments) == Walk(dir, ["..", b]) == Walk(up, [b]) == Walk(up + [b], []) == up + [b];
    assert dir == up + [dir[|dir| - 1]];
    if dir <= up + [b] { assert (up + [b])[|dir| - 1] == dir[|dir| - 1]; }
  }
}
