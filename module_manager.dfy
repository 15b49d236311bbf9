/** ModuleManager.cs: the bundler. It strips the block it generated last time out of
    the target Lua file and writes a fresh block in front of what is left: a banner,
    the dependencies' code split into a top and a bottom segment, and the project's
    own sources. The file system is a `Disk`: directories as trees, files by path. */
module Bundler {
  import opened Wrappers
  import opened Strings
  import Paths
  import D = Dependencies
  import P = Packages
  import R = Resolver
  import BusyState

  const ClientScriptStart: string := "-- (wlpm-generated-code start)"
  const ClientScriptEnd: string := "-- (wlpm-generated-code end)\n"
  /** The key under which rebuilds are coalesced. */
  const RebuildKey: string := "ModuleManager.RebuildModules"

  // ---------------------------------------------------------------------------
  // Stripping the previous block

  /** `pat` occurs at `i` and nowhere before it: what String.IndexOf finds. */
  predicate FirstAt(s: string, pat: string, i: int) {
    OccursAt(s, pat, i) && forall k :: 0 <= k < i ==> !OccursAt(s, pat, k)
  }

  /** RemoveBetween: keeps the text before the first `start` and the text after the
      first `end`. When that `end` lies before the `start`, nothing is cut and the
      text between them is repeated instead. */
  function RemoveBetween(source: string, start: string, end: string): (r: Result<string>)
    ensures !Contains(source, start) ==> r == Ok(source)
    ensures Contains(source, start) && !Contains(source, end) ==> r == Err(EndTagNotFound)
    ensures forall i, j :: FirstAt(source, start, i) && FirstAt(source, end, j) ==>
      && r == Ok(source[..i] + source[j + |end|..])
      && |r.value| == |source| - (j + |end| - i)
  {
    match IndexOf(source, start)
    case None => Ok(source)
    case Some(starts) =>
      match IndexOf(source, end)
      case None => Err(EndTagNotFound)
      case Some(ends) => Ok(source[..starts] + source[ends + |end|..])
  }

  /** An end tag in front of the start tag makes the text longer: the part
      between the end of that tag and the start tag comes out twice. */
  lemma EndBeforeStartRepeats()
    ensures RemoveBetween("e-s", "s", "e") == Ok("e--s")
  {
    var source := "e-s";
    assert FirstAt(source, "s", 2) by {
      assert source[2..3] == "s";
      assert !OccursAt(source, "s", 0) by { assert source[0..1] == "e"; }
      assert !OccursAt(source, "s", 1) by { assert source[1..2] == "-"; }
    }
    assert FirstAt(source, "e", 0) by { assert source[0..1] == "e"; }
    assert source[..2] + source[1..] == "e--s";
  }

  /** The end marker holds no line break before its last character. */
  lemma EndMarkerBreak()
    ensures |ClientScriptEnd| >= 1 && ClientScriptEnd[|ClientScriptEnd| - 1] == '\n'
    ensures forall k :: 0 <= k < |ClientScriptEnd| - 1 ==> ClientScriptEnd[k] != '\n'
  {
    var line := "-- (wlpm-generated-code end)";
    assert ClientScriptEnd == line + "\n";
    assert '\n' !in line;
    forall k | 0 <= k < |ClientScriptEnd| - 1
      ensures ClientScriptEnd[k] != '\n'
    {
      assert ClientScriptEnd[k] == line[k];
    }
  }

  /** The generated file: markers around the header and both segments, then the rest. */
  function Compose(header: string, top: string, bottom: string, rest: string): string {
    ClientScriptStart + header + top + bottom + "\n" + ClientScriptEnd + rest
  }

  /** What precedes the end marker in a composed file. */
  function Generated(header: string, top: string, bottom: string): string {
    ClientScriptStart + header + top + bottom + "\n"
  }

  /** Stripping a freshly composed file gives back the text it was composed around,
      provided the generated part holds no end marker of its own. */
  lemma ComposeRoundTrip(header: string, top: string, bottom: string, rest: string)
    requires !Contains(Generated(header, top, bottom), ClientScriptEnd)
    ensures RemoveBetween(Compose(header, top, bottom, rest), ClientScriptStart, ClientScriptEnd) == Ok(rest)
  {
    var p := Generated(header, top, bottom);
    var s := Compose(header, top, bottom, rest);
    assert s == p + ClientScriptEnd + rest;
    assert s[..|ClientScriptStart|] == ClientScriptStart;
    StartFirst(s);
    EndFirst(p, rest);
    assert FirstAt(s, ClientScriptEnd, |p|);
    assert s[..0] + s[|p| + |ClientScriptEnd|..] == rest;
  }

  /** A text that starts with the start marker has its first start marker at 0. */
  lemma StartFirst(s: string)
    requires StartsWith(s, ClientScriptStart)
    ensures FirstAt(s, ClientScriptStart, 0)
  {
    assert s[0..|ClientScriptStart|] == s[..|ClientScriptStart|];
  }

  /** The first end marker of p + end + rest is the one after p when p holds none. */
  lemma EndFirst(p: string, rest: string)
    requires !Contains(p, ClientScriptEnd)
    ensures FirstAt(p + ClientScriptEnd + rest, ClientScriptEnd, |p|)
  {
    var e := ClientScriptEnd;
    var s := p + e + rest;
    assert s[|p|..|p| + |e|] == e;
    forall j | 0 <= j < |p|
      ensures !OccursAt(s, e, j)
    {
      if OccursAt(s, e, j) {
        if j + |e| <= |p| {
          assert s[j..j + |e|] == p[j..j + |e|];
          assert OccursAt(p, e, j);
        } else {
          EndStraddles(p, rest, j);
        }
      }
    }
  }

  /** An end marker cannot begin inside p and end inside the end marker after it. */
  lemma EndStraddles(p: string, rest: string, j: int)
    requires 0 <= j < |p| < j + |ClientScriptEnd|
    ensures !OccursAt(p + ClientScriptEnd + rest, ClientScriptEnd, j)
  {
    EndMarkerBreak();
  }

  // ---------------------------------------------------------------------------
  // Headers and tags

  function TagStart(id: string): string {
    "-- (wlpm-start) " + id + "\n"
  }

  function TagEnd(id: string): string {
    "\n-- (wlpm-end) " + id
  }

  /** Lines 71-92: the banner with the version and build time, the loader script
      when `insertLoader` holds, and a blank line. */
  function Header(version: string, buildTime: string, insertLoader: bool, loader: string): (r: string)
    ensures StartsWith(r, "\n\n-- Warcraft 3 Lua Package Manager " + version + "\n-- Build time: " + buildTime)
    ensures EndsWith(r, "\n\n")
    ensures insertLoader ==> var h := Header(version, buildTime, false, loader);
      r == h[..|h| - 2] + "\n" + loader + h[|h| - 2..]
  {
    var banner := "\n\n-- Warcraft 3 Lua Package Manager " + version + "\n-- Build time: " + buildTime;
    var h := banner + (if insertLoader then "\n" + loader else "") + "\n\n";
    assert h[..|banner|] == banner;
    h
  }

  // ---------------------------------------------------------------------------
  // The file system

  datatype SourceFile = SourceFile(name: string, content: string)

  /** A directory: its full path, the files directly in it, its subdirectories
      (whose paths are full paths too). */
  datatype Tree = Tree(path: string, files: seq<SourceFile>, subdirs: seq<Tree>)

  /** One entry of a file listing: the full path and the file's text. */
  datatype Listed = Listed(path: string, content: string)

  /** Directories by path (None: Directory.GetFiles throws) and files by path
      (None: File.ReadAllText throws). */
  datatype Disk = Disk(dir: string -> Option<Tree>, file: string -> Option<string>)

  /** Where the code comes from: the disk, the project directory, the
      `sourceExtensions` wildcard pattern, and where a dependency's directory and
      single file lie. */
  datatype Source = Source(disk: Disk, projectDirectory: string, pattern: string,
                           dependencyDir: D.Dependency -> string, dependencyFile: D.Dependency -> string)

  /** The source a project directory gives: dependencies under GetDependencyDir and
      GetDependencyFile. */
  function ProjectSource(disk: Disk, projectDirectory: string, pattern: string): Source {
    Source(disk, projectDirectory, pattern,
      dep => R.DependencyDir(projectDirectory, dep), dep => R.DependencyFile(projectDirectory, dep))
  }

  /** The wildcard test on a file name, as Directory.GetFiles applies it: '*' matches
      any run of characters and '?' zero or one character; letters are compared
      exactly, case included. */
  predicate Glob(pattern: string, name: string)
    decreases |pattern| + |name|
  {
    if pattern == [] then name == []
    else if pattern[0] == '*' then Glob(pattern[1..], name) || (name != [] && Glob(pattern, name[1..]))
    else if pattern[0] == '?' then Glob(pattern[1..], name) || (name != [] && Glob(pattern[1..], name[1..]))
    else name != [] && pattern[0] == name[0] && Glob(pattern[1..], name[1..])
  }

  predicate Literal(s: string) {
    '*' !in s && '?' !in s
  }

  /** A pattern without wildcards matches only itself. */
  lemma {:induction false} GlobLiteral(lit: string, name: string)
    requires Literal(lit)
    ensures Glob(lit, name) <==> name == lit
    decreases |lit|
  {
    if lit != [] && name != [] {
      GlobLiteral(lit[1..], name[1..]);
      if name == lit {
        assert name[1..] == lit[1..];
      } else if lit[0] == name[0] {
        assert name == [name[0]] + name[1..] && lit == [lit[0]] + lit[1..];
      }
    }
  }

  /** A leading '?' makes its character optional: "?" + lit matches lit itself and
      every name of one more character that ends in lit. */
  lemma GlobOptional(lit: string, name: string)
    requires Literal(lit)
    ensures Glob("?" + lit, name) <==> name == lit || (name != [] && name[1..] == lit)
  {
    var pat := "?" + lit;
    assert pat[1..] == lit;
    GlobLiteral(lit, name);
    if name != [] {
      GlobLiteral(lit, name[1..]);
    }
  }

  /** A pattern "*" + ext, such as the default "*.lua", matches exactly the names
      ending in ext. */
  lemma {:induction false} GlobSuffix(ext: string, name: string)
    requires Literal(ext)
    ensures Glob("*" + ext, name) <==> EndsWith(name, ext)
    decreases |name|
  {
    var pat := "*" + ext;
    assert pat[1..] == ext;
    GlobLiteral(ext, name);
    if name != [] {
      GlobSuffix(ext, name[1..]);
      if |ext| <= |name| - 1 {
        assert name[|name| - |ext|..] == name[1..][|name[1..]| - |ext|..];
      }
    }
  }

  /** The files of one directory that match, in listing order. */
  function Matching(dir: string, files: seq<SourceFile>, pattern: string): seq<Listed> {
    if files == [] then []
    else
      var f := files[0];
      (if Glob(pattern, f.name) then [Listed(Paths.Combine(dir, f.name), f.content)] else [])
        + Matching(dir, files[1..], pattern)
  }

  /** Directory.GetFiles(path, pattern, SearchOption.AllDirectories): the directory's
      own files, then its subdirectories' files, depth first. */
  function AllFiles(t: Tree, pattern: string): seq<Listed>
    decreases t, 1
  {
    Matching(t.path, t.files, pattern) + AllFilesIn(t.subdirs, pattern)
  }

  function AllFilesIn(ts: seq<Tree>, pattern: string): seq<Listed>
    decreases ts, 0
  {
    if ts == [] then [] else AllFiles(ts[0], pattern) + AllFilesIn(ts[1..], pattern)
  }

  /** What GetCodeFor(string[]) emits for one directory: every file below it (line 164),
      then the same again for each subdirectory (line 179). */
  function EmittedDir(t: Tree, pattern: string): seq<Listed>
    decreases t, 1
  {
    AllFiles(t, pattern) + EmittedDirs(t.subdirs, pattern)
  }

  function EmittedDirs(ts: seq<Tree>, pattern: string): seq<Listed>
    decreases ts, 0
  {
    if ts == [] then [] else EmittedDir(ts[0], pattern) + EmittedDirs(ts[1..], pattern)
  }

  /** The text line 173 appends per source file: a comment with its path, then the code. */
  function Listing(fs: seq<Listed>): string {
    if fs == [] then ""
    else Listing(fs[..|fs| - 1]) + "\n\n-- " + fs[|fs| - 1].path + "\n" + fs[|fs| - 1].content
  }

  /** The text line 208 appends per file of a dependency: the code alone. */
  function Bodies(fs: seq<Listed>): string {
    if fs == [] then "" else Bodies(fs[..|fs| - 1]) + "\n\n" + fs[|fs| - 1].content
  }

  lemma {:induction false} ListingAppend(a: seq<Listed>, b: seq<Listed>)
    ensures Listing(a + b) == Listing(a) + Listing(b)
    decreases |b|
  {
    if b == [] {
      assert a + b == a;
    } else {
      var b' := b[..|b| - 1];
      assert (a + b)[..|a + b| - 1] == a + b';
      ListingAppend(a, b');
    }
  }

  lemma {:induction false} BodiesAppend(a: seq<Listed>, b: seq<Listed>)
    ensures Bodies(a + b) == Bodies(a) + Bodies(b)
    decreases |b|
  {
    if b == [] {
      assert a + b == a;
    } else {
      var b' := b[..|b| - 1];
      assert (a + b)[..|a + b| - 1] == a + b';
      BodiesAppend(a, b');
    }
  }

  /** Every tree in `ts` has its files in the listing of `ts`. */
  lemma {:induction false} AllFilesInHolds(ts: seq<Tree>, pattern: string, i: nat)
    requires i < |ts|
    ensures multiset(AllFiles(ts[i], pattern)) <= multiset(AllFilesIn(ts, pattern))
    decreases |ts|
  {
    if i > 0 {
      AllFilesInHolds(ts[1..], pattern, i - 1);
    }
  }

  lemma {:induction false} EmittedDirsHolds(ts: seq<Tree>, pattern: string, i: nat)
    requires i < |ts|
    ensures multiset(EmittedDir(ts[i], pattern)) <= multiset(EmittedDirs(ts, pattern))
    decreases |ts|
  {
    if i > 0 {
      EmittedDirsHolds(ts[1..], pattern, i - 1);
    }
  }

  /** The files of a subdirectory are emitted at least twice: once in the parent's
      recursive listing and once more for the subdirectory itself. */
  lemma NestedFilesRepeated(t: Tree, pattern: string, i: nat)
    requires i < |t.subdirs|
    ensures var fs := multiset(AllFiles(t.subdirs[i], pattern));
      fs + fs <= multiset(EmittedDir(t, pattern))
  {
    AllFilesInHolds(t.subdirs, pattern, i);
    EmittedDirsHolds(t.subdirs, pattern, i);
  }

  /** A directory without subdirectories emits each matching file once. */
  lemma FlatDirectoryOnce(path: string, files: seq<SourceFile>, pattern: string)
    ensures EmittedDir(Tree(path, files, []), pattern) == Matching(path, files, pattern)
  {
    var t := Tree(path, files, []);
    assert AllFilesIn(t.subdirs, pattern) == [] && EmittedDirs(t.subdirs, pattern) == [];
    assert AllFiles(t, pattern) == Matching(path, files, pattern) + [];
  }

  // ---------------------------------------------------------------------------
  // The code of the project's own sources: GetCodeFor(string[])

  function DirPath(src: Source, dir: string): string {
    Paths.Combine(src.projectDirectory, dir)
  }

  /** The trees of the listed source directories; the first missing one is an error. */
  function Lookup(src: Source, dirs: seq<string>): (r: Result<seq<Tree>>)
    ensures r.Ok? <==> forall j :: 0 <= j < |dirs| ==> src.disk.dir(DirPath(src, dirs[j])).Some?
    ensures r.Ok? ==> (|r.value| == |dirs| &&
      forall j :: 0 <= j < |dirs| ==> src.disk.dir(DirPath(src, dirs[j])) == Some(r.value[j]))
    ensures r.Err? ==> exists j :: (0 <= j < |dirs| && src.disk.dir(DirPath(src, dirs[j])).None? &&
      r.error == MissingDirectory(DirPath(src, dirs[j])) &&
      forall k :: 0 <= k < j ==> src.disk.dir(DirPath(src, dirs[k])).Some?)
  {
    if dirs == [] then Ok([])
    else
      match src.disk.dir(DirPath(src, dirs[0]))
      case None => Err(MissingDirectory(DirPath(src, dirs[0])))
      case Some(t) =>
        match Lookup(src, dirs[1..])
        case Err(e) =>
          assert forall k :: 1 <= k < |dirs| ==> dirs[k] == dirs[1..][k - 1];
          Err(e)
        case Ok(ts) =>
          assert forall k :: 1 <= k < |dirs| ==> dirs[k] == dirs[1..][k - 1];
          Ok([t] + ts)
  }

  /** GetCodeFor(string[]): "" for no directories, otherwise the listing of every
      directory in turn, each followed by its subdirectories' listings. */
  function SourcesCode(src: Source, dirs: seq<string>): (r: Result<string>)
    ensures r.Err? <==> exists j :: 0 <= j < |dirs| && src.disk.dir(DirPath(src, dirs[j])).None?
  {
    if |dirs| < 1 then Ok("")
    else
      match Lookup(src, dirs)
      case Err(e) => Err(e)
      case Ok(ts) => Ok(Listing(EmittedDirs(ts, src.pattern)))
  }

  lemma EmittedDirsSnoc(ts: seq<Tree>, pattern: string, i: nat)
    requires i < |ts|
    ensures EmittedDirs(ts[..i + 1], pattern) == EmittedDirs(ts[..i], pattern) + EmittedDir(ts[i], pattern)
  {
    EmittedDirsAppend(ts[..i], [ts[i]], pattern);
    assert ts[..i] + [ts[i]] == ts[..i + 1];
  }

  lemma {:induction false} EmittedDirsAppend(a: seq<Tree>, b: seq<Tree>, pattern: string)
    ensures EmittedDirs(a + b, pattern) == EmittedDirs(a, pattern) + EmittedDirs(b, pattern)
    decreases |a|
  {
    if a == [] {
      assert a + b == b;
    } else {
      assert (a + b)[1..] == a[1..] + b;
      EmittedDirsAppend(a[1..], b, pattern);
    }
  }

  lemma TreeStep(ts: seq<Tree>, pattern: string, i: nat)
    requires i < |ts|
    ensures Listing(EmittedDirs(ts[..i + 1], pattern)) == Listing(EmittedDirs(ts[..i], pattern))
      + (Listing(AllFiles(ts[i], pattern)) + Listing(EmittedDirs(ts[i].subdirs, pattern)))
  {
    ListingAppend(AllFiles(ts[i], pattern), EmittedDirs(ts[i].subdirs, pattern));
    EmittedDirsSnoc(ts, pattern, i);
    ListingAppend(EmittedDirs(ts[..i], pattern), EmittedDir(ts[i], pattern));
  }

  /** Lines 165-176: one comment line and the code per listed file. */
  method ListFiles(files: seq<Listed>) returns (text: string)
    ensures text == Listing(files)
  {
    text := "";
    for k := 0 to |files|
      invariant text == Listing(files[..k])
    {
      assert files[..k + 1][..k] == files[..k];
      text := text + "\n\n-- " + files[k].path + "\n" + files[k].content;
    }
    assert files[..|files|] == files;
  }

  /** Lines 162-180 for trees already listed: each tree's files, then the recursion
      into its subdirectories. */
  method CodeForTrees(ts: seq<Tree>, pattern: string) returns (result: string)
    ensures result == Listing(EmittedDirs(ts, pattern))
    decreases ts
  {
    result := "";
    for i := 0 to |ts|
      invariant result == Listing(EmittedDirs(ts[..i], pattern))
    {
      var files := AllFiles(ts[i], pattern);
      var own := ListFiles(files);
      var nested := CodeForTrees(ts[i].subdirs, pattern);
      TreeStep(ts, pattern, i);
      result := result + (own + nested);
    }
    assert ts[..|ts|] == ts;
  }

  /** One more directory's code appended to the listing of the ones before it. */
  lemma SourcesStep(trees: seq<Tree>, t: Tree, pattern: string)
    ensures Listing(EmittedDirs(trees + [t], pattern))
      == Listing(EmittedDirs(trees, pattern)) + Listing(EmittedDirs([t], pattern))
  {
    EmittedDirsAppend(trees, [t], pattern);
    ListingAppend(EmittedDirs(trees, pattern), EmittedDirs([t], pattern));
  }

  /** SourcesCode once every directory has been found. */
  lemma SourcesFound(src: Source, dirs: seq<string>, trees: seq<Tree>)
    requires |dirs| >= 1 && |trees| == |dirs|
    requires forall j :: 0 <= j < |dirs| ==> src.disk.dir(DirPath(src, dirs[j])) == Some(trees[j])
    ensures SourcesCode(src, dirs) == Ok(Listing(EmittedDirs(trees, src.pattern)))
  {
    var found := Lookup(src, dirs);
    assert found.Ok?;
    assert found.value == trees;
  }

  /** SourcesCode when directory `i` is the first one missing. */
  lemma SourcesMissing(src: Source, dirs: seq<string>, i: nat)
    requires i < |dirs| && src.disk.dir(DirPath(src, dirs[i])).None?
    requires forall j :: 0 <= j < i ==> src.disk.dir(DirPath(src, dirs[j])).Some?
    ensures SourcesCode(src, dirs) == Err(MissingDirectory(DirPath(src, dirs[i])))
  {
    var found := Lookup(src, dirs);
    assert found.Err?;
  }

  /** GetCodeFor(string[]) on the project's `sources`. */
  method CodeForSources(src: Source, dirs: seq<string>) returns (r: Result<string>)
    ensures r == SourcesCode(src, dirs)
  {
    if |dirs| < 1 {
      return Ok("");
    }
    var result := "";
    ghost var trees: seq<Tree> := [];
    for i := 0 to |dirs|
      invariant |trees| == i
      invariant forall j :: 0 <= j < i ==> src.disk.dir(DirPath(src, dirs[j])) == Some(trees[j])
      invariant result == Listing(EmittedDirs(trees, src.pattern))
    {
      var dirPath := DirPath(src, dirs[i]);
      match src.disk.dir(dirPath)
      case None =>
        SourcesMissing(src, dirs, i);
        return Err(MissingDirectory(dirPath));
      case Some(t) =>
        var code := CodeForTrees([t], src.pattern);
        SourcesStep(trees, t, src.pattern);
        result := result + code;
        trees := trees + [t];
    }
    SourcesFound(src, dirs, trees);
    r := Ok(result);
  }

  // ---------------------------------------------------------------------------
  // The code of one dependency: GetCodeFor(PackageDependency)

  /** `fs` once per element of a list of `n`. */
  function Repeat(fs: seq<Listed>, n: nat): seq<Listed> {
    if n == 0 then [] else Repeat(fs, n - 1) + fs
  }

  function RepeatText(s: string, n: nat): string {
    if n == 0 then "" else RepeatText(s, n - 1) + s
  }

  /** A dependency's block: its start tag, then for a package the code of every file
      under the dependency's directory, listed once per declared source, or for a
      single-file dependency that file; then its end tag. */
  function DependencyCode(src: Source, dep: D.Dependency): (r: Result<string>)
    ensures r.Ok? ==> StartsWith(r.value, "-- (wlpm-start) " + dep.resource + "\n")
    ensures r.Ok? ==> EndsWith(r.value, "\n-- (wlpm-end) " + dep.resource)
    ensures r.Err? <==>
      (if dep.kind == D.Package then |dep.sources| > 0 && src.disk.dir(src.dependencyDir(dep)).None?
       else src.disk.file(src.dependencyFile(dep)).None?)
  {
    var open := TagStart(dep.resource);
    var close := TagEnd(dep.resource);
    var body: Result<string> :=
      if dep.kind == D.Package then
        if |dep.sources| == 0 then Ok("")
        else
          var dir := src.dependencyDir(dep);
          match src.disk.dir(dir)
          case None => Err(MissingDirectory(dir))
          case Some(t) => Ok(Bodies(Repeat(AllFiles(t, src.pattern), |dep.sources|)))
      else
        var path := src.dependencyFile(dep);
        match src.disk.file(path)
        case None => Err(MissingFile(path))
        case Some(text) => Ok(text);
    match body
    case Err(e) => Err(e)
    case Ok(b) =>
      var r := open + b + close;
      assert r[..|open|] == open;
      assert r[|r| - |close|..] == close;
      Ok(r)
  }

  /** The files of a package dependency are emitted once per entry of its `sources`,
      whatever those entries say (line 198 adds the same directory each time). */
  lemma PackageFilesPerSource(src: Source, dep: D.Dependency, t: Tree)
    requires dep.kind == D.Package && |dep.sources| > 0
    requires src.disk.dir(src.dependencyDir(dep)) == Some(t)
    ensures DependencyCode(src, dep) == Ok(TagStart(dep.resource)
      + RepeatText(Bodies(AllFiles(t, src.pattern)), |dep.sources|) + TagEnd(dep.resource))
  {
    RepeatBodies(AllFiles(t, src.pattern), |dep.sources|);
  }

  lemma {:induction false} RepeatBodies(fs: seq<Listed>, n: nat)
    ensures Bodies(Repeat(fs, n)) == RepeatText(Bodies(fs), n)
  {
    if n > 0 {
      RepeatBodies(fs, n - 1);
      BodiesAppend(Repeat(fs, n - 1), fs);
    }
  }

  /** Lines 185-215. */
  method CodeForDependency(src: Source, dep: D.Dependency) returns (r: Result<string>)
    ensures r == DependencyCode(src, dep)
  {
    var result := TagStart(dep.resource);
    if dep.kind == D.Package {
      var dirs := SourceDirs(src, dep);
      var filenames :- PackageFiles(src, dep, dirs);
      var bodies := JoinBodies(filenames);
      result := result + bodies;
    } else {
      var path := src.dependencyFile(dep);
      match src.disk.file(path)
      case None =>
        return Err(MissingFile(path));
      case Some(text) =>
        result := result + text;
    }
    r := Ok(result + TagEnd(dep.resource));
  }

  /** Lines 196-199: the dependency's directory, once per declared source. */
  method SourceDirs(src: Source, dep: D.Dependency) returns (dirs: seq<string>)
    ensures |dirs| == |dep.sources|
    ensures forall j :: 0 <= j < |dirs| ==> dirs[j] == src.dependencyDir(dep)
  {
    var dir := src.dependencyDir(dep);
    dirs := [];
    for s := 0 to |dep.sources|
      invariant |dirs| == s
      invariant forall j :: 0 <= j < s ==> dirs[j] == dir
    {
      dirs := dirs + [dir];
    }
  }

  /** Lines 201-204: every file under each listed directory, in turn. */
  method PackageFiles(src: Source, dep: D.Dependency, dirs: seq<string>) returns (r: Result<seq<Listed>>)
    requires |dirs| == |dep.sources|
    requires forall j :: 0 <= j < |dirs| ==> dirs[j] == src.dependencyDir(dep)
    ensures var dir := src.dependencyDir(dep);
      if |dirs| > 0 && src.disk.dir(dir).None? then r == Err(MissingDirectory(dir))
      else (r.Ok? && (|dirs| > 0 ==> r.value == Repeat(AllFiles(src.disk.dir(dir).value, src.pattern), |dirs|))
        && (|dirs| == 0 ==> r.value == []))
  {
    var filenames: seq<Listed> := [];
    ghost var dir := src.dependencyDir(dep);
    for i := 0 to |dirs|
      invariant i == 0 ==> filenames == []
      invariant i > 0 ==> src.disk.dir(dir).Some? && filenames == Repeat(AllFiles(src.disk.dir(dir).value, src.pattern), i)
    {
      match src.disk.dir(dirs[i])
      case None =>
        return Err(MissingDirectory(dirs[i]));
      case Some(t) =>
        filenames := filenames + AllFiles(t, src.pattern);
    }
    r := Ok(filenames);
  }

  /** Lines 206-209: the code of each file after a blank line. */
  method JoinBodies(files: seq<Listed>) returns (text: string)
    ensures text == Bodies(files)
  {
    text := "";
    for k := 0 to |files|
      invariant text == Bodies(files[..k])
    {
      assert files[..k + 1][..k] == files[..k];
      text := text + "\n\n" + files[k].content;
    }
    assert files[..|files|] == files;
  }

  // ---------------------------------------------------------------------------
  // Segments

  /** Lines 94-105 as a fold over the order index: each dependency's block goes to
      the top segment when it is `topOrder`, to the bottom one otherwise; the bottom
      starts with a blank line. */
  function Segments(src: Source, deps: map<string, D.Dependency>, order: seq<string>): Result<(string, string)>
    decreases |order|
  {
    if order == [] then Ok(("", "\n\n"))
    else
      var init := order[..|order| - 1];
      var index := order[|order| - 1];
      match Segments(src, deps, init)
      case Err(e) => Err(e)
      case Ok(acc) =>
        if index !in deps then Err(MissingIndex(index))
        else
          match DependencyCode(src, deps[index])
          case Err(e) => Err(e)
          case Ok(code) =>
            if deps[index].topOrder then Ok((acc.0 + "\n\n" + code, acc.1))
            else Ok((acc.0, acc.1 + "\n\n" + code))
  }

  /** The fold succeeds exactly when every entry of the order index is in the map
      and its block builds. */
  lemma {:induction false} SegmentsOk(src: Source, deps: map<string, D.Dependency>, order: seq<string>)
    ensures Segments(src, deps, order).Ok? <==>
      forall i :: 0 <= i < |order| ==> order[i] in deps && DependencyCode(src, deps[order[i]]).Ok?
    decreases |order|
  {
    if order != [] {
      var init := order[..|order| - 1];
      assert forall i :: 0 <= i < |init| ==> init[i] == order[i];
      SegmentsOk(src, deps, init);
    }
  }

  /** Once a prefix of the order index fails, the whole fold fails the same way. */
  lemma {:induction false} SegmentsStops(src: Source, deps: map<string, D.Dependency>, order: seq<string>, i: nat)
    requires i <= |order| && Segments(src, deps, order[..i]).Err?
    ensures Segments(src, deps, order) == Segments(src, deps, order[..i])
    decreases |order|
  {
    if i < |order| {
      var init := order[..|order| - 1];
      assert init[..i] == order[..i];
      SegmentsStops(src, deps, init, i);
    } else {
      assert order[..i] == order;
    }
  }

  /** An order-index entry missing from the dependency map is an error, provided
      every entry before it built. */
  lemma FirstMissingFails(src: Source, deps: map<string, D.Dependency>, order: seq<string>, i: nat)
    requires i < |order| && order[i] !in deps
    requires forall j :: 0 <= j < i ==> order[j] in deps && DependencyCode(src, deps[order[j]]).Ok?
    ensures Segments(src, deps, order) == Err(MissingIndex(order[i]))
  {
    var pre := order[..i + 1];
    assert pre[..i] == order[..i];
    SegmentsOk(src, deps, order[..i]);
    assert Segments(src, deps, order[..i]).Ok?;
    SegmentsStops(src, deps, order, i + 1);
  }

  /** The blocks of the entries of `order` whose `topOrder` is `top`, in order. */
  function Section(src: Source, deps: map<string, D.Dependency>, order: seq<string>, top: bool): string {
    if order == [] then ""
    else
      var index := order[|order| - 1];
      var before := Section(src, deps, order[..|order| - 1], top);
      if index in deps && deps[index].topOrder == top && DependencyCode(src, deps[index]).Ok?
      then before + "\n\n" + DependencyCode(src, deps[index]).value
      else before
  }

  /** The top segment is the `topOrder` dependencies' blocks and the bottom one the
      others', each in order-index order. */
  lemma {:induction false} SegmentsPartition(src: Source, deps: map<string, D.Dependency>, order: seq<string>)
    requires Segments(src, deps, order).Ok?
    ensures Segments(src, deps, order).value == (Section(src, deps, order, true), "\n\n" + Section(src, deps, order, false))
    decreases |order|
  {
    if order != [] {
      SegmentsPartition(src, deps, order[..|order| - 1]);
      PartitionStep(src, deps, order);
    } else {
      assert "\n\n" + "" == "\n\n";
    }
  }

  lemma PartitionStep(src: Source, deps: map<string, D.Dependency>, order: seq<string>)
    requires order != [] && Segments(src, deps, order).Ok?
    requires var init := order[..|order| - 1];
      Segments(src, deps, init).Ok? &&
      Segments(src, deps, init).value == (Section(src, deps, init, true), "\n\n" + Section(src, deps, init, false))
    ensures Segments(src, deps, order).value == (Section(src, deps, order, true), "\n\n" + Section(src, deps, order, false))
  {
    var init := order[..|order| - 1];
    var index := order[|order| - 1];
    var code := DependencyCode(src, deps[index]);
    var low := Section(src, deps, init, false);
    if !deps[index].topOrder {
      assert "\n\n" + (low + "\n\n" + code.value) == "\n\n" + low + "\n\n" + code.value;
    }
  }

  /** Lines 94-105. */
  method AssembleSegments(src: Source, deps: map<string, D.Dependency>, order: seq<string>) returns (r: Result<(string, string)>)
    ensures r == Segments(src, deps, order)
  {
    var top := "";
    var bottom := "\n\n";
    for i := 0 to |order|
      invariant Segments(src, deps, order[..i]) == Ok((top, bottom))
    {
      var index := order[i];
      assert order[..i + 1][..i] == order[..i];
      if index !in deps {
        SegmentsStops(src, deps, order, i + 1);
        return Err(MissingIndex(index));
      }
      var code := CodeForDependency(src, deps[index]);
      if code.Err? {
        SegmentsStops(src, deps, order, i + 1);
        return Err(code.error);
      }
      if deps[index].topOrder {
        top := top + "\n\n" + code.value;
      } else {
        bottom := bottom + "\n\n" + code.value;
      }
    }
    assert order[..|order|] == order;
    r := Ok((top, bottom));
  }

  // ---------------------------------------------------------------------------
  // The whole rebuild

  /** The text read from the target: a file that stays unreadable through every
      attempt leaves the empty string. */
  function TargetText(original: Option<string>): string {
    if original.Some? then original.value else ""
  }

  /** Lines 58-109: the new content of the target file. */
  function Rebuild(src: Source, deps: map<string, D.Dependency>, order: seq<string>, project: P.Config,
                   version: string, buildTime: string, loader: string, original: Option<string>): (r: Result<string>)
    ensures r.Ok? ==> StartsWith(r.value, ClientScriptStart)
    ensures r.Err? <==> (RemoveBetween(TargetText(original), ClientScriptStart, ClientScriptEnd).Err?
      || Segments(src, deps, order).Err? || SourcesCode(src, project.sources).Err?)
  {
    match RemoveBetween(TargetText(original), ClientScriptStart, ClientScriptEnd)
    case Err(e) => Err(e)
    case Ok(rest) =>
      var header := Header(version, buildTime, project.insertModuleLoader, loader);
      match Segments(src, deps, order)
      case Err(e) => Err(e)
      case Ok(seg) =>
        match SourcesCode(src, project.sources)
        case Err(e) => Err(e)
        case Ok(local) =>
          var r := Compose(header, seg.0, seg.1 + local, rest);
          assert r[..|ClientScriptStart|] == ClientScriptStart;
          Ok(r)
  }

  /** Everything a rebuild generates builds, and none of it holds an end marker. */
  predicate CleanBuild(src: Source, deps: map<string, D.Dependency>, order: seq<string>, project: P.Config,
                       version: string, buildTime: string, loader: string) {
    && Segments(src, deps, order).Ok?
    && SourcesCode(src, project.sources).Ok?
    && !Contains(Generated(Header(version, buildTime, project.insertModuleLoader, loader),
         Segments(src, deps, order).value.0,
         Segments(src, deps, order).value.1 + SourcesCode(src, project.sources).value), ClientScriptEnd)
  }

  /** Rebuilding over the file a rebuild wrote, with nothing else changed, writes
      the same file again: the old block is stripped and the rest is kept. */
  lemma RebuildStable(src: Source, deps: map<string, D.Dependency>, order: seq<string>, project: P.Config,
                      version: string, buildTime: string, loader: string, original: Option<string>)
    requires Rebuild(src, deps, order, project, version, buildTime, loader, original).Ok?
    requires CleanBuild(src, deps, order, project, version, buildTime, loader)
    ensures var first := Rebuild(src, deps, order, project, version, buildTime, loader, original);
      Rebuild(src, deps, order, project, version, buildTime, loader, Some(first.value)) == first
  {
    var header := Header(version, buildTime, project.insertModuleLoader, loader);
    var seg := Segments(src, deps, order).value;
    var local := SourcesCode(src, project.sources).value;
    var rest := RemoveBetween(TargetText(original), ClientScriptStart, ClientScriptEnd).value;
    ComposeRoundTrip(header, seg.0, seg.1 + local, rest);
  }

  // ---------------------------------------------------------------------------
  // The bundler object

  class ModuleManager {
    const pm: R.PackageManager
    /** The DelayedBusyState the bundler itself is: its flag and pending rebuilds. */
    const state: BusyState.DelayedBusyState
    const appVersion: string
    /** GetClientScript: the Lua loader, an opaque text. */
    const loader: string
    /** The target's write time recorded by the last rebuild. */
    var targetLastChange: int

    constructor (pm: R.PackageManager, appVersion: string, loader: string, now: int)
      ensures this.pm == pm && this.appVersion == appVersion && this.loader == loader
      ensures fresh(state) && !state.busy && state.handlers == map[] && state.log == []
      ensures targetLastChange == now
    {
      this.pm := pm;
      this.appVersion := appVersion;
      this.loader := loader;
      state := new BusyState.DelayedBusyState();
      targetLastChange := now;
      new;
      Clear(now);
    }

    /** Clear: the recorded time becomes the current time (the AddDays(-1) result is
        discarded, so no day is taken off). */
    method Clear(now: int)
      modifies this`targetLastChange
      ensures targetLastChange == now
    {
      targetLastChange := now;
    }

    /** IsTargetChangedOutside, given the target's current write time. */
    predicate IsTargetChangedOutside(writeTime: int)
      reads this
    {
      writeTime != targetLastChange
    }

    /** RebuildModules: posts the rebuild on the package manager's coordinator under
        the rebuild key, replacing a rebuild already pending there. */
    method RebuildModules(callback: BusyState.Handler)
      modifies pm.coordinator
      ensures pm.coordinator.busy == old(pm.coordinator.busy)
      ensures old(pm.coordinator.busy) ==> pm.coordinator.handlers == old(pm.coordinator.handlers)[RebuildKey := callback]
      ensures !old(pm.coordinator.busy) ==> (pm.coordinator.handlers == map[]
        && |old(pm.coordinator.log)| <= |pm.coordinator.log|
        && pm.coordinator.log[..|old(pm.coordinator.log)|] == old(pm.coordinator.log)
        && BusyState.IsDrainOf(old(pm.coordinator.handlers)[RebuildKey := callback],
             pm.coordinator.log[|old(pm.coordinator.log)|..]))
    {
      pm.coordinator.InvokeASAP(RebuildKey, callback);
    }

    /** _RebuildModules, given the disk, the build time text and the write time the
        file system reports after the write; the result is the text written to the
        target file. */
    method RebuildTarget(disk: Disk, buildTime: string, writeTime: int) returns (r: Result<string>)
      modifies this, state
      ensures pm.projectPackage.None? ==> r == Err(NoProjectPackage)
      ensures pm.projectPackage.Some? ==>
        (var project := pm.projectPackage.value;
         r == Rebuild(ProjectSource(disk, pm.projectDirectory, project.sourceExtensions), pm.dependencies, pm.orderIndex,
                      project, appVersion, buildTime, loader, disk.file(Paths.Combine(pm.projectDirectory, project.target))))
      ensures r.Err? ==> (state.busy && state.handlers == old(state.handlers) && state.log == old(state.log)
        && targetLastChange == old(targetLastChange))
      ensures r.Ok? ==> !state.busy && state.handlers == map[] && targetLastChange == writeTime
      ensures r.Ok? ==> (|old(state.log)| <= |state.log| && state.log[..|old(state.log)|] == old(state.log)
        && BusyState.IsDrainOf(old(state.handlers) - {RebuildKey}, state.log[|old(state.log)|..]))
      ensures r.Ok? ==> (!IsTargetChangedOutside(writeTime)
        && forall t :: IsTargetChangedOutside(t) <==> t != writeTime)
    {
      state.SetBusy(true);
      if pm.projectPackage.None? {
        return Err(NoProjectPackage);
      }
      var project := pm.projectPackage.value;
      var src := ProjectSource(disk, pm.projectDirectory, project.sourceExtensions);
      var original := disk.file(Paths.Combine(pm.projectDirectory, project.target));
      var targetOriginal := "";
      if original.Some? {
        targetOriginal := original.value;
      }
      var rest :- RemoveBetween(targetOriginal, ClientScriptStart, ClientScriptEnd);
      var header := Header(appVersion, buildTime, project.insertModuleLoader, loader);
      var seg :- AssembleSegments(src, pm.dependencies, pm.orderIndex);
      var local :- CodeForSources(src, project.sources);
      var target := ClientScriptStart + header + seg.0 + (seg.1 + local) + "\n" + ClientScriptEnd + rest;
      state.UnsubscribeASAPEvent(RebuildKey);
      targetLastChange := writeTime;
      state.SetBusy(false);
      r := Ok(target);
    }
  }
}
