/** PackageManager.cs: the resolver. It reads the project's wlpm-package.json,
    decides from state.lock.json whether the dependencies must be fetched again,
    loads them recursively into a working set keyed by id, writes the lock, and
    edits the project file for `install`. Downloads, archives and the JSON text
    parser are outside the model: a `World` value answers for them. */
module Resolver {
  import opened Wrappers
  import opened Json
  import opened Strings
  import Paths
  import Repository
  import D = Dependencies
  import P = Packages
  import BusyState

  const ProjectPackageName: string := "wlpm-package.json"
  const ProjectStateLockName: string := "state.lock.json"
  const ProjectPackageDir: string := ".wlpm"

  // ---------------------------------------------------------------------------
  // Paths of a dependency's files

  /** GetDependencyDir: ProjectDirectory/.wlpm/packages/<id>. */
  function DependencyDir(projectDirectory: string, dep: D.Dependency): string {
    Paths.Combine(Paths.Combine(Paths.Combine(projectDirectory, ProjectPackageDir), "packages"), dep.Id())
  }

  /** GetDependencyFile: src/file.lua inside the dependency's directory. */
  function DependencyFile(projectDirectory: string, dep: D.Dependency): string {
    Paths.Combine(Paths.Combine(DependencyDir(projectDirectory, dep), "src"), "file.lua")
  }

  /** A dependency's directory lies under the project directory and is named by its id. */
  lemma DependencyDirShape(projectDirectory: string, dep: D.Dependency)
    requires dep.Id() != ""
    ensures var r := DependencyDir(projectDirectory, dep);
      && Paths.FileName(r) == dep.Id()
      && r[|r| - 1] != Paths.Separator
      && (projectDirectory != "" ==> StartsWith(r, projectDirectory))
  {
    var base := Paths.Combine(projectDirectory, ProjectPackageDir);
    PackageDirShape(projectDirectory);
    CombineBelow(base, "packages");
    var packages := base + "/" + "packages";
    var id := dep.Id();
    D.IdShape(dep.resource, dep.version);
    CombineBelow(packages, id);
    var r := packages + "/" + id;
    Paths.FileNameAfterSeparator(packages + "/", id);
    if projectDirectory != "" {
      PrefixOfPrefix(r, packages, base);
      PrefixOfPrefix(r, base, projectDirectory);
    }
  }

  /** ProjectDirectory/.wlpm: a path below the project directory, not ending in a separator. */
  lemma PackageDirShape(projectDirectory: string)
    ensures var base := Paths.Combine(projectDirectory, ProjectPackageDir);
      && |base| > 0 && base[|base| - 1] != Paths.Separator
      && (projectDirectory != "" ==> StartsWith(base, projectDirectory))
  {
  }

  lemma PrefixOfPrefix(a: string, b: string, c: string)
    requires StartsWith(a, b) && StartsWith(b, c)
    ensures StartsWith(a, c)
  {
    assert a[..|c|] == a[..|b|][..|c|];
  }

  /** A File dependency's code is file.lua in the src directory of its own directory. */
  lemma DependencyFileShape(projectDirectory: string, dep: D.Dependency)
    requires dep.Id() != ""
    ensures DependencyFile(projectDirectory, dep) == DependencyDir(projectDirectory, dep) + "/" + "src" + "/" + "file.lua"
    ensures Paths.FileName(DependencyFile(projectDirectory, dep)) == "file.lua"
  {
    var dir := DependencyDir(projectDirectory, dep);
    DependencyDirShape(projectDirectory, dep);
    SourceFileBelow(dir);
  }

  /** src/file.lua below a directory that does not end in a separator. */
  lemma SourceFileBelow(dir: string)
    requires |dir| > 0 && dir[|dir| - 1] != Paths.Separator
    ensures Paths.Combine(Paths.Combine(dir, "src"), "file.lua") == dir + "/" + "src" + "/" + "file.lua"
    ensures Paths.FileName(dir + "/" + "src" + "/" + "file.lua") == "file.lua"
  {
    CombineBelow(dir, "src");
    var src := dir + "/" + "src";
    CombineBelow(src, "file.lua");
    Paths.FileNameAfterSeparator(src + "/", "file.lua");
  }

  /** Path.Combine of a directory not ending in a separator and a plain name. */
  lemma CombineBelow(dir: string, name: string)
    requires |dir| > 0 && dir[|dir| - 1] != Paths.Separator
    requires |name| > 0 && Paths.Separator !in name
    ensures Paths.Combine(dir, name) == dir + "/" + name
    ensures var r := dir + "/" + name; r[|r| - 1] != Paths.Separator && StartsWith(r, dir)
  {
    assert name[|name| - 1] in name;
    var r := dir + "/" + name;
    assert r[..|dir|] == dir;
  }

  // ---------------------------------------------------------------------------
  // The outside world

  /** What `new Uri(resource)` exposes: the host and the absolute path. */
  datatype Uri = Uri(host: string, absolutePath: string)

  /** The answers the resolver gets from outside: how a resource parses as a URI
      (None where System.Uri throws), whether downloading a URL succeeds (false
      where downloadFileAsync throws), the parsed wlpm-package.json inside the
      archive downloaded from a URL (None where the archive has none), and how
      the text of a file parses (None where JObject.Parse throws). */
  datatype World = World(
    uri: string -> Option<Uri>,
    downloads: string -> bool,
    archiveManifest: string -> Option<Json>,
    parse: seq<string> -> Option<Json>)

  /** The package `DownloadDependency` makes up for a File dependency: defaults, with
      "src" as the one source directory and the file's name as the title. */
  function FilePackage(resource: string): (c: P.Config)
    ensures c.sources == ["src"] && c.dependencies == []
    ensures c.title == Paths.FileNameWithoutExtension(resource)
  {
    P.Defaults.(sources := ["src"], title := Paths.FileNameWithoutExtension(resource))
  }

  /** The test a File dependency must pass before it is downloaded: a non-empty
      resource that a provider identifies or whose host the project allows. */
  predicate FileAdmitted(resource: string, host: string, allowHosts: seq<string>) {
    resource != "" && (Repository.GetProvider(resource).Some? || host in allowHosts)
  }

  /** DownloadDependency, with the download itself left to `world`. */
  function Download(world: World, allowHosts: seq<string>, dep: D.Dependency): (r: Result<P.Config>)
    ensures dep.kind == D.File ==>
      (r.Ok? <==> && world.uri(dep.resource).Some?
                  && FileAdmitted(dep.resource, world.uri(dep.resource).value.host, allowHosts)
                  && world.downloads(dep.resource))
    ensures dep.kind == D.File && r.Ok? ==> r.value == FilePackage(dep.resource)
    ensures dep.kind == D.File && world.uri(dep.resource).Some? && r.Err? ==>
      r.error == if FileAdmitted(dep.resource, world.uri(dep.resource).value.host, allowHosts)
        then DownloadFailed(dep.resource) else WrongHostForFile(dep.resource)
    ensures dep.kind == D.Package && Repository.GetProvider(dep.resource).None? ==> r == Err(NoProvider(dep.resource))
    ensures dep.kind == D.Package && r.Ok? ==>
      && Repository.GetProvider(dep.resource).Some? && world.uri(dep.resource).Some?
      && var url := Repository.GetZipFileUrl(Repository.GetProvider(dep.resource).value, dep.resource,
                                             world.uri(dep.resource).value.absolutePath, dep.version);
         && url.Ok? && world.downloads(url.value) && world.archiveManifest(url.value).Some?
         && r == P.FromJson(world.archiveManifest(url.value).value)
    ensures dep.kind == D.Package && Repository.GetProvider(dep.resource).Some? && world.uri(dep.resource).Some? ==>
      var url := Repository.GetZipFileUrl(Repository.GetProvider(dep.resource).value, dep.resource,
                                          world.uri(dep.resource).value.absolutePath, dep.version);
      && (url.Err? ==> r == Err(url.error))
      && (url.Ok? && !world.downloads(url.value) ==> r == Err(DownloadFailed(url.value)))
      && (url.Ok? && world.downloads(url.value) && world.archiveManifest(url.value).None? ==> r == Err(ManifestMissing(dep.resource)))
  {
    var provider := Repository.GetProvider(dep.resource);
    if dep.kind == D.File then
      match world.uri(dep.resource)
      case None => Err(InvalidUri(dep.resource))
      case Some(uri) =>
        if !FileAdmitted(dep.resource, uri.host, allowHosts) then Err(WrongHostForFile(dep.resource))
        else if !world.downloads(dep.resource) then Err(DownloadFailed(dep.resource))
        else Ok(FilePackage(dep.resource))
    else if provider.Some? then
      match world.uri(dep.resource)
      case None => Err(InvalidUri(dep.resource))
      case Some(uri) =>
        var url :- Repository.GetZipFileUrl(provider.value, dep.resource, uri.absolutePath, dep.version);
        if !world.downloads(url) then Err(DownloadFailed(url))
        else
          match world.archiveManifest(url)
          case None => Err(ManifestMissing(dep.resource))
          case Some(manifest) => P.FromJson(manifest)
    else Err(NoProvider(dep.resource))
  }

  /** `Download` for one world and one project, as the function the loader calls. */
  function Fetcher(world: World, allowHosts: seq<string>): (f: D.Dependency -> Result<P.Config>)
    ensures forall dep :: f(dep) == Download(world, allowHosts, dep)
  {
    (dep: D.Dependency) => Download(world, allowHosts, dep)
  }

  // ---------------------------------------------------------------------------
  // The working set: the Dependencies dictionary and its order index

  /** The key each dependency is stored under. The resolver stores a dependency
      under its id; the loading functions below take the key as a parameter so
      that what they promise does not depend on how ids are generated. */
  type Key = D.Dependency -> string

  /** The key of the source: `dep.id`. */
  function IdKey(): (key: Key)
    ensures forall d :: key(d) == d.Id()
  {
    (d: D.Dependency) => d.Id()
  }

  /** `Dependencies` keyed by id, and `DependenciesOrderIndex`, the ids in the
      order `LoadDependency` inserted them. */
  datatype Working = Working(deps: map<string, D.Dependency>, order: seq<string>)

  const Empty: Working := Working(map[], [])

  /** The order index lists every key of the map, each once. */
  predicate Consistent(w: Working) {
    && (forall i :: 0 <= i < |w.order| ==> w.order[i] in w.deps)
    && (forall k :: k in w.deps ==> k in w.order)
    && (forall i, j :: 0 <= i < j < |w.order| ==> w.order[i] != w.order[j])
  }

  /** `b` is `a` with entries added: nothing removed, nothing replaced, the order index extended. */
  predicate Grows(a: Working, b: Working) {
    && |a.order| <= |b.order| && b.order[..|a.order|] == a.order
    && (forall k :: k in a.deps ==> k in b.deps && b.deps[k] == a.deps[k])
  }

  lemma GrowsTransitive(a: Working, b: Working, c: Working)
    requires Grows(a, b) && Grows(b, c)
    ensures Grows(a, c)
  {
    assert c.order[..|a.order|] == c.order[..|b.order|][..|a.order|];
  }

  /** `Dependencies.Add(dep.id, dep)` with the order index kept alongside; Add throws on a present key. */
  function Insert(w: Working, id: string, dep: D.Dependency): (r: Result<Working>)
    ensures r.Err? <==> id in w.deps
    ensures r.Err? ==> r.error == DuplicateKey(id)
    ensures r.Ok? ==> Grows(w, r.value) && id in r.value.deps && r.value.deps[id] == dep
    ensures r.Ok? ==> |r.value.order| == |w.order| + 1 && r.value.order[|w.order|] == id
    ensures r.Ok? ==> r.value.deps.Keys == w.deps.Keys + {id}
  {
    if id in w.deps then Err(DuplicateKey(id))
    else
      var r := Working(w.deps[id := dep], w.order + [id]);
      assert r.order[..|w.order|] == w.order;
      Ok(r)
  }

  /** Adding an entry under a new key keeps the map and the order index in step. */
  lemma InsertConsistent(w: Working, id: string, dep: D.Dependency)
    requires Consistent(w) && Insert(w, id, dep).Ok?
    ensures Consistent(Insert(w, id, dep).value)
  {
    AddConsistent(w, id, dep);
  }

  lemma AddConsistent(w: Working, id: string, dep: D.Dependency)
    requires Consistent(w) && id !in w.deps
    ensures Consistent(Working(w.deps[id := dep], w.order + [id]))
  {
    var r := Working(w.deps[id := dep], w.order + [id]);
    assert id !in w.order;
    forall i | 0 <= i < |r.order| ensures r.order[i] in r.deps {
      if i < |w.order| { assert r.order[i] == w.order[i]; }
    }
    forall k | k in r.deps ensures k in r.order {
      if k != id {
        var i :| 0 <= i < |w.order| && w.order[i] == k;
        assert r.order[i] == k;
      } else {
        assert r.order[|w.order|] == k;
      }
    }
    forall i, j | 0 <= i < j < |r.order| ensures r.order[i] != r.order[j] {
      assert r.order[i] == w.order[i];
      if j < |w.order| { assert r.order[j] == w.order[j]; }
      else { assert w.order[i] in w.deps; }
    }
  }

  // ---------------------------------------------------------------------------
  // LoadDependency

  /** A measure that drops with every level of depth up to the 512 bound. */
  function Rank(depth: int): nat {
    if depth > 512 then 0 else 2 * (513 - depth)
  }

  /** The number of children a package loads: those not the same as the package itself. */
  function Loadable(children: seq<D.Dependency>, parent: D.Dependency): (n: nat)
    ensures n <= |children|
  {
    if children == [] then 0
    else (if D.SameAs(children[0], parent) then 0 else 1) + Loadable(children[1..], parent)
  }

  /** LoadDependency(dep, depth): past depth 512 it throws; otherwise it downloads the
      package, loads its children, and inserts `dep`, with the package's sources,
      after them. */
  function Load(fetch: D.Dependency -> Result<P.Config>, key: Key, dep: D.Dependency, depth: int, w: Working): (r: Result<Working>)
    ensures r.Ok? ==> depth <= 512 && fetch(dep).Ok?
    ensures r.Ok? ==> Grows(w, r.value) && key(dep) !in w.deps && key(dep) in r.value.deps
    ensures r.Ok? ==> r.value.deps[key(dep)] == dep.(sources := fetch(dep).value.sources)
    ensures r.Ok? ==> |r.value.order| > 0 && r.value.order[|r.value.order| - 1] == key(dep)
    decreases Rank(depth), 0
  {
    if depth > 512 then Err(LoopDetected)
    else
      var p :- fetch(dep);
      var loaded :- LoadChildren(fetch, key, dep, p.dependencies, depth, w);
      var r := Insert(loaded, key(dep), dep.(sources := p.sources));
      if r.Ok? then
        GrowsTransitive(w, loaded, r.value);
        r
      else r
  }

  /** The `foreach` over a package's dependencies: one is skipped when it is the same
      as the package, otherwise loaded one level deeper than the sibling loaded
      before it (`++depth`). */
  function LoadChildren(fetch: D.Dependency -> Result<P.Config>, key: Key, parent: D.Dependency,
                        children: seq<D.Dependency>, depth: int, w: Working): (r: Result<Working>)
    ensures r.Ok? ==> Grows(w, r.value)
    ensures r.Ok? ==> forall i :: 0 <= i < |children| && !D.SameAs(children[i], parent) ==> key(children[i]) in r.value.deps
    ensures r.Ok? ==> Loadable(children, parent) == 0 || depth + Loadable(children, parent) <= 512
    decreases Rank(depth + 1) + 1, |children|
  {
    if children == [] then Ok(w)
    else if D.SameAs(children[0], parent) then
      LoadChildren(fetch, key, parent, children[1..], depth, w)
    else
      var next :- Load(fetch, key, children[0], depth + 1, w);
      var r := LoadChildren(fetch, key, parent, children[1..], depth + 1, next);
      if r.Ok? then
        GrowsTransitive(w, next, r.value);
        r
      else r
  }

  /** A successful load keeps the order index and the map in step. */
  lemma {:induction false} LoadConsistent(fetch: D.Dependency -> Result<P.Config>, key: Key,
                                          dep: D.Dependency, depth: int, w: Working)
    requires Consistent(w) && Load(fetch, key, dep, depth, w).Ok?
    ensures Consistent(Load(fetch, key, dep, depth, w).value)
    decreases Rank(depth), 0
  {
    var p := fetch(dep).value;
    LoadChildrenConsistent(fetch, key, dep, p.dependencies, depth, w);
    var loaded := LoadChildren(fetch, key, dep, p.dependencies, depth, w).value;
    InsertConsistent(loaded, key(dep), dep.(sources := p.sources));
  }

  lemma {:induction false} LoadChildrenConsistent(fetch: D.Dependency -> Result<P.Config>, key: Key, parent: D.Dependency,
                                                  children: seq<D.Dependency>, depth: int, w: Working)
    requires Consistent(w) && LoadChildren(fetch, key, parent, children, depth, w).Ok?
    ensures Consistent(LoadChildren(fetch, key, parent, children, depth, w).value)
    decreases Rank(depth + 1) + 1, |children|
  {
    if children != [] {
      if D.SameAs(children[0], parent) {
        LoadChildrenConsistent(fetch, key, parent, children[1..], depth, w);
      } else {
        LoadConsistent(fetch, key, children[0], depth + 1, w);
        var next := Load(fetch, key, children[0], depth + 1, w).value;
        LoadChildrenConsistent(fetch, key, parent, children[1..], depth + 1, next);
      }
    }
  }

  /** Post-order: the children a package loads come before it in the order index. */
  lemma ChildrenFirst(fetch: D.Dependency -> Result<P.Config>, key: Key, dep: D.Dependency, depth: int,
                      w: Working, c: D.Dependency)
    requires Consistent(w) && Load(fetch, key, dep, depth, w).Ok?
    requires c in fetch(dep).value.dependencies && !D.SameAs(c, dep)
    ensures var r := Load(fetch, key, dep, depth, w).value;
      key(c) in r.order[..|r.order| - 1]
  {
    var p := fetch(dep).value;
    LoadChildrenConsistent(fetch, key, dep, p.dependencies, depth, w);
    var loaded := LoadChildren(fetch, key, dep, p.dependencies, depth, w).value;
    var i :| 0 <= i < |p.dependencies| && p.dependencies[i] == c;
    assert key(c) in loaded.deps;
    var r := Load(fetch, key, dep, depth, w).value;
    assert r == Insert(loaded, key(dep), dep.(sources := p.sources)).value;
    assert r.order[..|r.order| - 1] == loaded.order;
  }

  /** Every member of `loop` downloads, and the first dependency of its package is
      another member of `loop` that is not the same as it. */
  predicate Cyclic(fetch: D.Dependency -> Result<P.Config>, loop: set<D.Dependency>) {
    forall d :: d in loop ==>
      && fetch(d).Ok? && |fetch(d).value.dependencies| > 0
      && fetch(d).value.dependencies[0] in loop
      && !D.SameAs(fetch(d).value.dependencies[0], d)
  }

  /** A dependency cycle ends in "Dependency loop detected" rather than in endless recursion. */
  lemma {:induction false} CycleDetected(fetch: D.Dependency -> Result<P.Config>, key: Key, loop: set<D.Dependency>,
                                         dep: D.Dependency, depth: int, w: Working)
    requires Cyclic(fetch, loop) && dep in loop
    ensures Load(fetch, key, dep, depth, w) == Err(LoopDetected)
    decreases Rank(depth)
  {
    if depth <= 512 {
      var children := fetch(dep).value.dependencies;
      CycleDetected(fetch, key, loop, children[0], depth + 1, w);
      assert LoadChildren(fetch, key, dep, children, depth, w) == Err(LoopDetected);
    }
  }

  /** Two packages that each require the other: loading either fails with the loop error. */
  lemma MutualDependency(fetch: D.Dependency -> Result<P.Config>, key: Key, a: D.Dependency, b: D.Dependency, w: Working)
    requires !D.SameAs(a, b)
    requires fetch(a).Ok? && fetch(a).value.dependencies == [b]
    requires fetch(b).Ok? && fetch(b).value.dependencies == [a]
    ensures Load(fetch, key, a, 0, w) == Err(LoopDetected)
  {
    assert !D.SameAs(b, a);
    CycleDetected(fetch, key, {a, b}, a, 0, w);
  }

  /** A package that lists itself is not loaded again: the `sameAs` test skips it. */
  lemma SelfReferenceSkipped(fetch: D.Dependency -> Result<P.Config>, key: Key, dep: D.Dependency, w: Working)
    requires fetch(dep).Ok? && fetch(dep).value.dependencies == [dep]
    requires key(dep) !in w.deps
    ensures Load(fetch, key, dep, 0, w).Ok?
  {
    var children := fetch(dep).value.dependencies;
    assert D.SameAs(children[0], dep);
    assert LoadChildren(fetch, key, dep, children, 0, w) == LoadChildren(fetch, key, dep, [], 0, w);
  }

  /** Since each loaded sibling goes one level deeper, a package with more than 512
      loadable dependencies fails with the loop error although there is no loop. */
  lemma WideFails(fetch: D.Dependency -> Result<P.Config>, key: Key, dep: D.Dependency, w: Working)
    requires fetch(dep).Ok? && Loadable(fetch(dep).value.dependencies, dep) > 512
    ensures Load(fetch, key, dep, 0, w).Err?
  {
  }

  /** There is no "already loaded" skip: loading a dependency whose key is in the
      working set fails. */
  lemma LoadPresentFails(fetch: D.Dependency -> Result<P.Config>, key: Key, dep: D.Dependency, depth: int, w: Working)
    requires key(dep) in w.deps
    ensures Load(fetch, key, dep, depth, w).Err?
  {
  }

  // ---------------------------------------------------------------------------
  // UpdatePackages

  /** The `foreach` of UpdatePackages: each dependency of the project loaded from depth 0. */
  function LoadAll(fetch: D.Dependency -> Result<P.Config>, key: Key, deps: seq<D.Dependency>, w: Working): (r: Result<Working>)
    ensures r.Ok? ==> Grows(w, r.value)
    ensures r.Ok? ==> forall i :: 0 <= i < |deps| ==> key(deps[i]) in r.value.deps
  {
    if deps == [] then Ok(w)
    else
      var next :- Load(fetch, key, deps[0], 0, w);
      var r := LoadAll(fetch, key, deps[1..], next);
      if r.Ok? then
        GrowsTransitive(w, next, r.value);
        r
      else r
  }

  lemma {:induction false} LoadAllConsistent(fetch: D.Dependency -> Result<P.Config>, key: Key, deps: seq<D.Dependency>, w: Working)
    requires Consistent(w) && LoadAll(fetch, key, deps, w).Ok?
    ensures Consistent(LoadAll(fetch, key, deps, w).value)
    decreases |deps|
  {
    if deps != [] {
      LoadConsistent(fetch, key, deps[0], 0, w);
      LoadAllConsistent(fetch, key, deps[1..], Load(fetch, key, deps[0], 0, w).value);
    }
  }

  /** When LoadAll succeeds, it went on from a working set holding the first
      dependency's key. */
  lemma LoadAllFirst(fetch: D.Dependency -> Result<P.Config>, key: Key, deps: seq<D.Dependency>, w: Working)
    returns (next: Working)
    requires deps != []
    ensures LoadAll(fetch, key, deps, w).Ok? ==>
      key(deps[0]) in next.deps && LoadAll(fetch, key, deps[1..], next) == LoadAll(fetch, key, deps, w)
  {
    var loaded := Load(fetch, key, deps[0], 0, w);
    next := if loaded.Ok? then loaded.value else w;
  }

  /** The two repeated keys, seen in the dependencies after the first. */
  lemma TailKeys(key: Key, deps: seq<D.Dependency>, i: nat, j: nat)
    requires i < j < |deps| && key(deps[i]) == key(deps[j])
    ensures key(deps[1..][j - 1]) == key(deps[i])
    ensures i > 0 ==> key(deps[1..][i - 1]) == key(deps[1..][j - 1])
  {
    assert deps[1..][j - 1] == deps[j];
    if i > 0 {
      assert deps[1..][i - 1] == deps[i];
    }
  }

  /** Two project dependencies that share a key cannot both be loaded. */
  lemma {:induction false} RepeatedDependencyFails(fetch: D.Dependency -> Result<P.Config>, key: Key,
                                                   deps: seq<D.Dependency>, w: Working, i: nat, j: nat)
    requires i < j < |deps| && key(deps[i]) == key(deps[j])
    ensures LoadAll(fetch, key, deps, w).Err?
    decreases i
  {
    var next := LoadAllFirst(fetch, key, deps, w);
    TailKeys(key, deps, i, j);
    if i > 0 {
      RepeatedDependencyFails(fetch, key, deps[1..], next, i - 1, j - 1);
    } else if key(deps[0]) in next.deps {
      LoadAllPresentFails(fetch, key, deps[1..], next, j - 1);
    }
  }

  lemma {:induction false} LoadAllPresentFails(fetch: D.Dependency -> Result<P.Config>, key: Key,
                                               deps: seq<D.Dependency>, w: Working, j: nat)
    requires j < |deps| && key(deps[j]) in w.deps
    ensures LoadAll(fetch, key, deps, w).Err?
    decreases j
  {
    var next := Load(fetch, key, deps[0], 0, w);
    if next.Ok? && j > 0 {
      LoadAllPresentFails(fetch, key, deps[1..], next.value, j - 1);
    }
  }

  // ---------------------------------------------------------------------------
  // The lock file

  /** Each entry sits under its own key. */
  predicate KeyedBy(key: Key, w: Working) {
    forall k :: k in w.deps ==> key(w.deps[k]) == k
  }

  /** A dependency reads back from its lock-state form unchanged: well formed, and not
      a File dependency with a version other than "*" (which would come back as "*"). */
  predicate Restorable(d: D.Dependency) {
    D.WellFormed(d) && (d.kind == D.Package || d.version == "*")
  }

  /** The lock-state form of each loaded dependency, in load order. */
  function LockEntries(w: Working): (ps: seq<Prop>)
    requires Consistent(w)
    ensures |ps| == |w.order|
    ensures forall i :: 0 <= i < |w.order| ==> ps[i] == D.ToJson(w.deps[w.order[i]], true)
  {
    seq(|w.order|, i requires 0 <= i < |w.order| => D.ToJson(w.deps[w.order[i]], true))
  }

  /** The document UpdatePackages writes to state.lock.json. */
  function LockDocument(w: Working): Json
    requires Consistent(w)
  {
    JObject([Prop("dependencies", JObject(LockEntries(w)))])
  }

  /** loadStateLock on the file's content: None for a missing file; JObject.Parse
      throws on a document that is not an object. */
  function OpenLock(lock: Option<Json>): (r: Result<Option<seq<Prop>>>)
    ensures lock.None? ==> r == Ok(None)
    ensures lock.Some? ==> (r.Ok? <==> lock.value.JObject?)
  {
    match lock
    case None => Ok(None)
    case Some(JObject(ps)) => Ok(Some(ps))
    case Some(_) => Err(NotAnObject)
  }

  /** The lock's "dependencies" property, when it is an object. */
  function LockDependencies(lock: seq<Prop>): Option<seq<Prop>> {
    match Get(lock, "dependencies")
    case Some(JObject(ps)) => Some(ps)
    case _ => None
  }

  /** Lines 108-112: each entry of the lock read as a dependency and added to `m`
      under its key; a second entry with the same key makes Add throw. */
  function ReadLock(key: Key, ps: seq<Prop>, m: map<string, D.Dependency>): (r: Result<map<string, D.Dependency>>)
    ensures r.Ok? ==> forall k :: k in m ==> k in r.value && r.value[k] == m[k]
    ensures r.Ok? ==> forall k :: k in r.value && k !in m ==> key(r.value[k]) == k && D.WellFormed(r.value[k])
  {
    if ps == [] then Ok(m)
    else
      var d :- LockEntry(ps[0]);
      if key(d) in m then Err(DuplicateKey(key(d)))
      else ReadLock(key, ps[1..], m[key(d) := d])
  }

  /** One lock entry read as a dependency, with the lock file named in the errors. */
  function LockEntry(p: Prop): (r: Result<D.Dependency>)
    ensures r.Ok? ==> D.WellFormed(r.value)
  {
    D.FromProperty(p.name, p.value, ProjectStateLockName)
  }

  /** A restorable dependency's lock entry reads back as the dependency itself. */
  lemma LockEntryRoundTrip(d: D.Dependency)
    requires Restorable(d)
    ensures LockEntry(D.ToJson(d, true)) == Ok(d)
  {
    D.ToJsonRoundTrip(d, true, ProjectStateLockName);
  }

  /** The map holding the first `n` entries of the order index. */
  function Prefix(w: Working, n: nat): map<string, D.Dependency>
    requires Consistent(w) && n <= |w.order|
  {
    map k | k in w.order[..n] :: w.deps[k]
  }

  /** The lock UpdatePackages writes reads back as the working set it was written from. */
  lemma LockRoundTrip(key: Key, w: Working)
    requires Consistent(w) && KeyedBy(key, w)
    requires forall k :: k in w.deps ==> Restorable(w.deps[k])
    ensures ReadLock(key, LockEntries(w), map[]) == Ok(w.deps)
  {
    assert Prefix(w, 0) == map[];
    ReadLockFrom(key, w, 0);
  }

  lemma {:induction false} ReadLockFrom(key: Key, w: Working, n: nat)
    requires Consistent(w) && KeyedBy(key, w) && n <= |w.order|
    requires forall k :: k in w.deps ==> Restorable(w.deps[k])
    ensures ReadLock(key, LockEntries(w)[n..], Prefix(w, n)) == Ok(w.deps)
    decreases |w.order| - n
  {
    if n == |w.order| {
      assert LockEntries(w)[n..] == [];
      assert Prefix(w, n) == w.deps by {
        assert w.order[..n] == w.order;
      }
    } else {
      assert w.order[n] in w.deps;
      ReadLockStep(key, w, n);
      ReadLockFrom(key, w, n + 1);
    }
  }

  lemma ReadLockStep(key: Key, w: Working, n: nat)
    requires Consistent(w) && KeyedBy(key, w) && n < |w.order|
    requires Restorable(w.deps[w.order[n]])
    ensures ReadLock(key, LockEntries(w)[n..], Prefix(w, n)) == ReadLock(key, LockEntries(w)[n + 1..], Prefix(w, n + 1))
  {
    var es := LockEntries(w)[n..];
    var d := w.deps[w.order[n]];
    assert es[0] == D.ToJson(d, true);
    LockEntryRoundTrip(d);
    PrefixStep(w, n);
    assert es[1..] == LockEntries(w)[n + 1..];
  }

  /** The prefix map grows by one entry, new to it, per step of the order index. */
  lemma PrefixStep(w: Working, n: nat)
    requires Consistent(w) && n < |w.order|
    ensures w.order[n] !in Prefix(w, n)
    ensures Prefix(w, n + 1) == Prefix(w, n)[w.order[n] := w.deps[w.order[n]]]
  {
    var a := w.order[..n];
    var b := w.order[..n + 1];
    assert b == a + [w.order[n]];
    assert forall x :: x in b <==> x in a || x == w.order[n];
    assert w.order[n] !in a;
  }

  /** Lines 113-118: some dependency of the previously read project has a resource
      that is not a property name of the lock's "dependencies". */
  predicate MissingFromLock(lockDeps: seq<Prop>, oldDeps: seq<D.Dependency>) {
    exists i :: 0 <= i < |oldDeps| && Get(lockDeps, oldDeps[i].resource).None?
  }

  /** Lines 121-131: some dependency of the project is not in the working set. */
  predicate HasUnloaded(key: Key, projectDeps: seq<D.Dependency>, deps: map<string, D.Dependency>) {
    exists i :: 0 <= i < |projectDeps| && key(projectDeps[i]) !in deps
  }

  /** Lines 100-131: whether RefreshPackages must fetch again, and the working set
      once the lock has been read. A missing lock forces a fetch; a lock whose
      "dependencies" is an object replaces the working set by its entries. */
  function Decide(key: Key, loadAgain: bool, lock: Option<seq<Prop>>, oldDeps: seq<D.Dependency>,
                  projectDeps: seq<D.Dependency>, w: Working): (r: Result<(bool, Working)>)
    ensures loadAgain || lock.None? ==> r == Ok((true, w))
    ensures !loadAgain && lock.Some? && LockDependencies(lock.value).None? ==>
      r == Ok((HasUnloaded(key, projectDeps, w.deps), w))
    ensures !loadAgain && lock.Some? && LockDependencies(lock.value).Some? ==>
      var ps := LockDependencies(lock.value).value;
      var read := ReadLock(key, ps, map[]);
      && (r.Ok? <==> read.Ok?)
      && (read.Err? ==> r.error == read.error)
      && (r.Ok? ==>
            && r.value.1 == Working(read.value, [])
            && (r.value.0 <==> MissingFromLock(ps, oldDeps) || HasUnloaded(key, projectDeps, read.value)))
  {
    if loadAgain || lock.None? then Ok((true, w))
    else
      var read :- match LockDependencies(lock.value)
        case None => Ok((false, w))
        case Some(ps) =>
          var m :- ReadLock(key, ps, map[]);
          Ok((MissingFromLock(ps, oldDeps), Working(m, [])));
      Ok((read.0 || HasUnloaded(key, projectDeps, read.1.deps), read.1))
  }

  /** A lock that holds every dependency of the project, written when the previous
      project had none, is taken as it stands: no fetch, and the working set
      becomes the written one (with an empty order index). */
  lemma FreshLockKept(key: Key, w: Working, projectDeps: seq<D.Dependency>, current: Working)
    requires Consistent(w) && KeyedBy(key, w)
    requires forall k :: k in w.deps ==> Restorable(w.deps[k])
    requires forall i :: 0 <= i < |projectDeps| ==> key(projectDeps[i]) in w.deps
    ensures Decide(key, false, Some(LockDocument(w).props), [], projectDeps, current) == Ok((false, Working(w.deps, [])))
  {
    LockRoundTrip(key, w);
    assert LockDependencies(LockDocument(w).props) == Some(LockEntries(w));
  }

  /** Lock keys are ids, which hold no '/', while the lookup of lines 113-118 goes by
      resource: once the project has a dependency whose resource holds a '/', as
      every URL does, each later refresh that reads a written lock fetches again. */
  lemma UrlDependencyForcesReload(w: Working, oldDeps: seq<D.Dependency>, projectDeps: seq<D.Dependency>,
                                  current: Working, i: nat)
    requires Consistent(w) && KeyedBy(IdKey(), w)
    requires i < |oldDeps| && '/' in oldDeps[i].resource
    requires ReadLock(IdKey(), LockEntries(w), map[]).Ok?
    ensures var r := Decide(IdKey(), false, Some(LockDocument(w).props), oldDeps, projectDeps, current);
      r.Ok? && r.value.0
  {
    var es := LockEntries(w);
    assert LockDependencies(LockDocument(w).props) == Some(es);
    forall j | 0 <= j < |es| ensures es[j].name != oldDeps[i].resource {
      IdHasNoSlash(w.deps[w.order[j]]);
    }
    GetAbsent(es, oldDeps[i].resource);
  }

  lemma IdHasNoSlash(d: D.Dependency)
    ensures '/' !in d.Id()
  {
    D.IdShape(d.resource, d.version);
  }

  /** The properties of the written lock have distinct names, so JObject.Add accepts them all. */
  lemma LockEntriesDistinct(w: Working)
    requires Consistent(w) && KeyedBy(IdKey(), w)
    ensures DistinctNames(LockEntries(w))
  {
    var es := LockEntries(w);
    forall i, j | 0 <= i < j < |es| ensures es[i].name != es[j].name {
      assert es[i].name == w.deps[w.order[i]].Id() == w.order[i];
      assert es[j].name == w.deps[w.order[j]].Id() == w.order[j];
    }
  }

  /** Loading keeps every entry under its id: `dep.Sources = p.Sources` changes no id. */
  lemma {:induction false} LoadKeyedBy(fetch: D.Dependency -> Result<P.Config>, dep: D.Dependency, depth: int, w: Working)
    requires KeyedBy(IdKey(), w) && Load(fetch, IdKey(), dep, depth, w).Ok?
    ensures KeyedBy(IdKey(), Load(fetch, IdKey(), dep, depth, w).value)
    decreases Rank(depth), 0
  {
    var p := fetch(dep).value;
    LoadChildrenKeyedBy(fetch, dep, p.dependencies, depth, w);
    var stored := dep.(sources := p.sources);
    assert stored.Id() == dep.Id();
  }

  lemma {:induction false} LoadChildrenKeyedBy(fetch: D.Dependency -> Result<P.Config>, parent: D.Dependency,
                                               children: seq<D.Dependency>, depth: int, w: Working)
    requires KeyedBy(IdKey(), w) && LoadChildren(fetch, IdKey(), parent, children, depth, w).Ok?
    ensures KeyedBy(IdKey(), LoadChildren(fetch, IdKey(), parent, children, depth, w).value)
    decreases Rank(depth + 1) + 1, |children|
  {
    if children != [] {
      if D.SameAs(children[0], parent) {
        LoadChildrenKeyedBy(fetch, parent, children[1..], depth, w);
      } else {
        LoadKeyedBy(fetch, children[0], depth + 1, w);
        var next := Load(fetch, IdKey(), children[0], depth + 1, w).value;
        LoadChildrenKeyedBy(fetch, parent, children[1..], depth + 1, next);
      }
    }
  }

  lemma {:induction false} LoadAllKeyedBy(fetch: D.Dependency -> Result<P.Config>, deps: seq<D.Dependency>, w: Working)
    requires KeyedBy(IdKey(), w) && LoadAll(fetch, IdKey(), deps, w).Ok?
    ensures KeyedBy(IdKey(), LoadAll(fetch, IdKey(), deps, w).value)
    decreases |deps|
  {
    if deps != [] {
      LoadKeyedBy(fetch, deps[0], 0, w);
      LoadAllKeyedBy(fetch, deps[1..], Load(fetch, IdKey(), deps[0], 0, w).value);
    }
  }

  // ---------------------------------------------------------------------------
  // UpdatePackages and RefreshPackages

  /** UpdatePackages: every dependency of the project loaded into an emptied working
      set, and the lock document listing them; the lock's Add calls never clash,
      since entries are named by id. */
  function Update(world: World, project: P.Config): (r: Result<(Working, Json)>)
    ensures var loaded := LoadAll(Fetcher(world, project.allowHosts), IdKey(), project.dependencies, Empty);
      && (r.Ok? <==> loaded.Ok?)
      && (r.Ok? ==> r.value.0 == loaded.value)
    ensures r.Ok? ==> Consistent(r.value.0) && KeyedBy(IdKey(), r.value.0) && r.value.1 == LockDocument(r.value.0)
    ensures r.Ok? ==> forall i :: 0 <= i < |project.dependencies| ==> project.dependencies[i].Id() in r.value.0.deps
  {
    var fetch := Fetcher(world, project.allowHosts);
    var w :- LoadAll(fetch, IdKey(), project.dependencies, Empty);
    LoadedLockable(fetch, project.dependencies);
    match AddAll(LockEntries(w))
    case Ok(entries) => Ok((w, JObject([Prop("dependencies", JObject(entries))])))
    case Err(e) => Err(e)
  }

  /** What UpdatePackages' loop leaves: a consistent working set keyed by id, whose
      lock entries JObject.Add accepts. */
  lemma LoadedLockable(fetch: D.Dependency -> Result<P.Config>, deps: seq<D.Dependency>)
    requires LoadAll(fetch, IdKey(), deps, Empty).Ok?
    ensures var w := LoadAll(fetch, IdKey(), deps, Empty).value;
      && Consistent(w) && KeyedBy(IdKey(), w) && AddAll(LockEntries(w)).Ok?
      && forall i :: 0 <= i < |deps| ==> deps[i].Id() in w.deps
  {
    var w := LoadAll(fetch, IdKey(), deps, Empty).value;
    LoadAllConsistent(fetch, IdKey(), deps, Empty);
    LoadAllKeyedBy(fetch, deps, Empty);
    LockEntriesDistinct(w);
    AddAllOk(LockEntries(w));
  }

  /** The resolver's state between calls: the project package read last (null before
      the first refresh), the working set, the lines of wlpm-package.json (None while
      the file does not exist) and the document in state.lock.json (None while it
      does not exist). */
  datatype Snapshot = Snapshot(project: Option<P.Config>, work: Working,
                               config: Option<seq<string>>, lock: Option<Json>)

  /** The lines of getDefaultConfiguration's text. */
  const DefaultConfigLines: seq<string> := ["{", "  \"title\": \"project\",", "  \"dependencies\": {}", "}"]

  /** FindProjectPackage: a missing file is first created with the default
      configuration; the text is parsed (JObject.Parse throws on text that is not
      JSON) and read as a Package. */
  function FindProject(world: World, config: Option<seq<string>>): (r: Result<P.Config>)
    ensures config.None? ==> r == Ok(P.Defaults)
    ensures config.Some? && world.parse(config.value).None? ==> r == Err(MalformedJson(ProjectPackageName))
    ensures config.Some? && world.parse(config.value).Some? ==> r == P.FromJson(world.parse(config.value).value)
  {
    match config
    case None =>
      P.DefaultConfigurationIsDefault();
      P.FromJson(P.DefaultConfiguration())
    case Some(lines) =>
      match world.parse(lines)
      case None => Err(MalformedJson(ProjectPackageName))
      case Some(j) => P.FromJson(j)
  }

  /** RefreshPackages: read the project, decide from the lock whether to fetch
      again, and fetch unless `neverLoadAgain`. */
  function Refresh(world: World, s: Snapshot, loadAgain: bool, neverLoadAgain: bool): (r: Result<Snapshot>)
    ensures r.Ok? ==> FindProject(world, s.config).Ok? && r.value.project == Some(FindProject(world, s.config).value)
    ensures r.Ok? ==> r.value.config == Some(ConfigAfter(s.config))
  {
    var located :- Locate(world, s, loadAgain);
    Finish(world, s, located.0, located.1 && !neverLoadAgain, located.2)
  }

  /** Lines 134-137: the packages fetched again when `reload`, and otherwise the
      working set `w` the lock gave kept, with the lock as it was. */
  function Finish(world: World, s: Snapshot, project: P.Config, reload: bool, w: Working): (r: Result<Snapshot>)
    ensures r.Ok? ==> r.value.project == Some(project) && r.value.config == Some(ConfigAfter(s.config))
    ensures !reload ==> r == Ok(Snapshot(Some(project), w, Some(ConfigAfter(s.config)), s.lock))
  {
    if reload then
      var updated :- Update(world, project);
      Ok(Snapshot(Some(project), updated.0, Some(ConfigAfter(s.config)), Some(updated.1)))
    else
      Ok(Snapshot(Some(project), w, Some(ConfigAfter(s.config)), s.lock))
  }

  /** The project file once FindProjectPackage has run: created when missing. */
  function ConfigAfter(config: Option<seq<string>>): seq<string> {
    if config.Some? then config.value else DefaultConfigLines
  }

  /** Lines 87-131: the project read, the lock opened and the reload decided,
      with the previous project's dependencies as `oldDeps`. */
  function Locate(world: World, s: Snapshot, loadAgain: bool): (r: Result<(P.Config, bool, Working)>)
    ensures r.Ok? ==> FindProject(world, s.config) == Ok(r.value.0)
  {
    var oldDeps := if s.project.Some? then s.project.value.dependencies else [];
    var project :- FindProject(world, s.config);
    var lock :- OpenLock(s.lock);
    var decision :- Decide(IdKey(), loadAgain, lock, oldDeps, project.dependencies, s.work);
    Ok((project, decision.0, decision.1))
  }

  /** The lock changes only when the packages are fetched again, and is then the
      one written for the new working set, which holds every dependency of the
      project; a forced refresh always fetches unless `neverLoadAgain`. */
  lemma RefreshWritesLock(world: World, s: Snapshot, loadAgain: bool, neverLoadAgain: bool)
    requires Refresh(world, s, loadAgain, neverLoadAgain).Ok?
    ensures var r := Refresh(world, s, loadAgain, neverLoadAgain).value;
      && (neverLoadAgain ==> r.lock == s.lock)
      && (r.lock != s.lock ==>
            && Consistent(r.work)
            && r.lock == Some(LockDocument(r.work))
            && var deps := r.project.value.dependencies;
               forall i :: 0 <= i < |deps| ==> deps[i].Id() in r.work.deps)
      && (loadAgain && !neverLoadAgain ==>
            var u := Update(world, r.project.value);
            u.Ok? && r.work == u.value.0 && r.lock == Some(u.value.1))
  {
  }

  /** On the first refresh of a session, a lock written for every dependency of the
      project is used as it stands: nothing is fetched, the lock is kept, and the
      working set is the one the lock was written from. */
  lemma FirstRefreshUsesLock(world: World, s: Snapshot, w: Working)
    requires Consistent(w) && KeyedBy(IdKey(), w)
    requires s.project.None? && s.lock == Some(LockDocument(w))
    requires forall k :: k in w.deps ==> Restorable(w.deps[k])
    requires FindProject(world, s.config).Ok?
    requires var deps := FindProject(world, s.config).value.dependencies;
      forall i :: 0 <= i < |deps| ==> deps[i].Id() in w.deps
    ensures var r := Refresh(world, s, false, false);
      r.Ok? && r.value.work == Working(w.deps, []) && r.value.lock == s.lock
  {
    var project := FindProject(world, s.config).value;
    FreshLockKept(IdKey(), w, project.dependencies, s.work);
  }

  /** Once a project with a URL dependency has been read, every later refresh of a
      session fetches again, whatever the lock holds. */
  lemma LaterRefreshFetches(world: World, s: Snapshot, w: Working, i: nat)
    requires s.project.Some? && i < |s.project.value.dependencies|
    requires '/' in s.project.value.dependencies[i].resource
    requires Consistent(w) && KeyedBy(IdKey(), w)
    requires s.lock == Some(LockDocument(w))
    requires ReadLock(IdKey(), LockEntries(w), map[]).Ok?
    requires FindProject(world, s.config).Ok?
    ensures var r := Refresh(world, s, false, false);
      r.Ok? ==> var u := Update(world, r.value.project.value);
        u.Ok? && r.value.work == u.value.0 && r.value.lock == Some(u.value.1)
  {
    var project := FindProject(world, s.config).value;
    var oldDeps := s.project.value.dependencies;
    UrlDependencyForcesReload(w, oldDeps, project.dependencies, s.work, i);
    assert OpenLock(s.lock) == Ok(Some(LockDocument(w).props));
    var decision := Decide(IdKey(), false, Some(LockDocument(w).props), oldDeps, project.dependencies, s.work);
    assert decision.Ok? && decision.value.0;
  }

  // ---------------------------------------------------------------------------
  // InstallDependency

  /** The text after which a dependency line is inserted. */
  const DependenciesMarker: string := "\"dependencies\":"

  predicate IsMarker(line: string) {
    Contains(line, DependenciesMarker)
  }

  /** The version written for a new dependency: "*" for "*" and for the empty string. */
  function VersionText(version: string): (v: string)
    ensures v != ""
    ensures version == "" || version == "*" ==> v == "*"
    ensures version != "" && version != "*" ==> v == version
  {
    if version != "*" && |version| > 0 then version else "*"
  }

  /** The line written for the new dependency, with or without a trailing comma. */
  function EntryLine(url: string, version: string, comma: bool): string {
    "        \"" + url + "\": \"" + VersionText(version) + (if comma then "\"," else "\"")
  }

  /** The number of marker lines. */
  function Markers(lines: seq<string>): (n: nat)
    ensures n <= |lines|
  {
    if lines == [] then 0
    else Markers(lines[..|lines| - 1]) + (if IsMarker(lines[|lines| - 1]) then 1 else 0)
  }

  /** The lines as the read loop collects them: each marker line followed by `entry`. */
  function WithEntry(lines: seq<string>, entry: string): seq<string> {
    if lines == [] then []
    else
      var last := lines[|lines| - 1];
      WithEntry(lines[..|lines| - 1], entry) + (if IsMarker(last) then [last, entry] else [last])
  }

  /** Where line `i` lands once the entries before it are inserted. */
  function Pos(lines: seq<string>, i: nat): nat
    requires i <= |lines|
  {
    i + Markers(lines[..i])
  }

  lemma {:induction false} WithEntryLength(lines: seq<string>, entry: string)
    ensures |WithEntry(lines, entry)| == |lines| + Markers(lines)
    decreases |lines|
  {
    if lines != [] {
      WithEntryLength(lines[..|lines| - 1], entry);
    }
  }

  /** Reading the first `k` lines collects a prefix of what reading them all collects. */
  lemma {:induction false} WithEntryPrefix(lines: seq<string>, entry: string, k: nat)
    requires k <= |lines|
    ensures WithEntry(lines[..k], entry) <= WithEntry(lines, entry)
    decreases |lines|
  {
    if k < |lines| {
      var n := |lines| - 1;
      assert lines[..n][..k] == lines[..k];
      WithEntryPrefix(lines[..n], entry, k);
    } else {
      assert lines[..k] == lines;
    }
  }

  /** Line `i` lands at `Pos(lines, i)`, followed by the entry when it is a marker
      line; the next line follows right after. */
  lemma WithEntryAt(lines: seq<string>, entry: string, i: nat)
    requires i < |lines|
    ensures var r := WithEntry(lines, entry);
      && Pos(lines, i) < |r| && r[Pos(lines, i)] == lines[i]
      && (IsMarker(lines[i]) ==> Pos(lines, i) + 1 < |r| && r[Pos(lines, i) + 1] == entry)
      && Pos(lines, i + 1) == Pos(lines, i) + (if IsMarker(lines[i]) then 2 else 1)
  {
    var pre := lines[..i + 1];
    assert pre[..i] == lines[..i];
    WithEntryPrefix(lines, entry, i + 1);
    WithEntryLength(lines[..i], entry);
  }

  /** Without a marker line the read loop gives the lines back unchanged. */
  lemma {:induction false} NoMarkerUnchanged(lines: seq<string>, entry: string)
    requires Markers(lines) == 0
    ensures WithEntry(lines, entry) == lines
    decreases |lines|
  {
    if lines != [] {
      NoMarkerUnchanged(lines[..|lines| - 1], entry);
    }
  }

  /** The new text of wlpm-package.json. With a marker line, the dependency line
      follows each one. Without, the first line is removed and four lines are put
      before the rest, each Insert(0, ..) in front of the previous one, so the file
      starts with the closing "    }," (RemoveAt(0) throws on an empty file). */
  function InstallLines(lines: seq<string>, url: string, version: string): (r: Result<seq<string>>)
    ensures Markers(lines) > 0 ==> r == Ok(WithEntry(lines, EntryLine(url, version, true)))
    ensures Markers(lines) == 0 && lines == [] ==> r == Err(EmptyConfigFile)
    ensures Markers(lines) == 0 && lines != [] ==>
      r == Ok(["    },", EntryLine(url, version, false), "    \"dependencies\": {", "{"] + lines[1..])
  {
    var read := WithEntry(lines, EntryLine(url, version, true));
    if Markers(lines) > 0 then Ok(read)
    else
      NoMarkerUnchanged(lines, EntryLine(url, version, true));
      if read == [] then Err(EmptyConfigFile)
      else Ok(["    },", EntryLine(url, version, false), "    \"dependencies\": {", "{"] + read[1..])
  }

  /** InstallDependency: nothing happens for an id already loaded; otherwise the
      project file is edited and the packages refreshed with a forced fetch. */
  function Install(world: World, s: Snapshot, url: string, version: string): (r: Result<Snapshot>)
    ensures D.GenerateId(url, version) in s.work.deps ==> r == Ok(s)
    ensures D.GenerateId(url, version) !in s.work.deps && s.config.None? ==> r == Err(MissingFile(ProjectPackageName))
    ensures D.GenerateId(url, version) !in s.work.deps && s.config.Some? ==>
      var edited := InstallLines(s.config.value, url, version);
      && (edited.Err? ==> r == Err(edited.error))
      && (edited.Ok? ==> r == Refresh(world, s.(config := Some(edited.value)), true, false))
  {
    if D.GenerateId(url, version) in s.work.deps then Ok(s)
    else
      match s.config
      case None => Err(MissingFile(ProjectPackageName))
      case Some(lines) =>
        var edited :- InstallLines(lines, url, version);
        Refresh(world, s.(config := Some(edited)), true, false)
  }

  /** Whether `Install` gets as far as RefreshPackages: the id is new, the project
      file exists and its edit succeeds. */
  predicate Refreshes(s: Snapshot, url: string, version: string) {
    && D.GenerateId(url, version) !in s.work.deps
    && s.config.Some?
    && InstallLines(s.config.value, url, version).Ok?
  }

  /** A successful install leaves the edited file in place and a lock written for a
      working set that holds every dependency of the re-read project. */
  lemma InstallRefetches(world: World, s: Snapshot, url: string, version: string)
    requires D.GenerateId(url, version) !in s.work.deps && s.config.Some?
    requires Install(world, s, url, version).Ok?
    ensures var r := Install(world, s, url, version).value;
      && r.config == Some(InstallLines(s.config.value, url, version).value)
      && Consistent(r.work)
      && r.lock == Some(LockDocument(r.work))
      && var deps := r.project.value.dependencies;
         forall i :: 0 <= i < |deps| ==> deps[i].Id() in r.work.deps
  {
    var edited := InstallLines(s.config.value, url, version).value;
    var r := Refresh(world, s.(config := Some(edited)), true, false).value;
    var u := Update(world, r.project.value);
    assert r.work == u.value.0 && r.lock == Some(u.value.1);
  }

  // ---------------------------------------------------------------------------
  // The package manager object

  /** `err` reports the outcome `r`, and on success `w` is the value `r` holds. */
  predicate Outcome<T(==)>(err: Option<Error>, r: Result<T>, w: T) {
    match r
    case Ok(v) => err.None? && w == v
    case Err(e) => err == Some(e)
  }

  /** The read loop of InstallDependency: the lines collected, each marker line
      followed by `entry`, and whether a marker line was seen. */
  method ReadLines(lines: seq<string>, entry: string) returns (collected: seq<string>, found: bool)
    ensures collected == WithEntry(lines, entry)
    ensures found <==> Markers(lines) > 0
  {
    collected := [];
    found := false;
    var i := 0;
    while i < |lines|
      invariant 0 <= i <= |lines|
      invariant collected == WithEntry(lines[..i], entry)
      invariant found <==> Markers(lines[..i]) > 0
    {
      var line := lines[i];
      assert lines[..i + 1][..i] == lines[..i];
      collected := collected + [line];
      if IsMarker(line) {
        found := true;
        collected := collected + [entry];
      }
      i := i + 1;
    }
    assert lines[..i] == lines;
  }

  /** Lines 113-118: the loop over the previous project's dependencies that stops at
      the first one whose resource the lock's "dependencies" does not name. */
  method CheckOldDependencies(lockDeps: seq<Prop>, oldDeps: seq<D.Dependency>) returns (missing: bool)
    ensures missing <==> MissingFromLock(lockDeps, oldDeps)
  {
    for i := 0 to |oldDeps|
      invariant forall j :: 0 <= j < i ==> Get(lockDeps, oldDeps[j].resource).Some?
    {
      var found := Get(lockDeps, oldDeps[i].resource);
      if found.None? {
        return true;
      }
    }
    return false;
  }

  /** The edit of InstallDependency: the read loop, then, when no marker line was
      seen, RemoveAt(0) and four Insert(0, ..) calls. */
  method EditConfig(original: seq<string>, url: string, version: string) returns (r: Result<seq<string>>)
    ensures r == InstallLines(original, url, version)
  {
    var lines, found := ReadLines(original, EntryLine(url, version, true));
    if !found {
      NoMarkerUnchanged(original, EntryLine(url, version, true));
      if lines == [] {
        return Err(EmptyConfigFile);
      }
      var rest := lines[1..];
      lines := rest;
      lines := ["{"] + lines;
      lines := ["    \"dependencies\": {"] + lines;
      lines := [EntryLine(url, version, false)] + lines;
      lines := ["    },"] + lines;
      assert lines == ["    },", EntryLine(url, version, false), "    \"dependencies\": {", "{"] + rest;
    }
    return Ok(lines);
  }

  /** The resolver, with its working set (`Dependencies` and the order index the
      module manager iterates), the project package read last, and the two files
      it reads and writes. The busy flag is that of `coordinator`, the
      DelayedBusyState the manager extends. */
  class PackageManager {
    const projectDirectory: string
    const coordinator: BusyState.DelayedBusyState
    var projectPackage: Option<P.Config>
    var dependencies: map<string, D.Dependency>
    var orderIndex: seq<string>
    /** The lines of wlpm-package.json, None while it does not exist. */
    var configFile: Option<seq<string>>
    /** The document in state.lock.json, None while it does not exist. */
    var stateLock: Option<Json>

    function Current(): Working
      reads this
    {
      Working(dependencies, orderIndex)
    }

    function State(): Snapshot
      reads this
    {
      Snapshot(projectPackage, Current(), configFile, stateLock)
    }

    constructor (projectDirectory: string, configFile: Option<seq<string>>, stateLock: Option<Json>)
      ensures this.projectDirectory == projectDirectory
      ensures State() == Snapshot(None, Empty, configFile, stateLock)
      ensures fresh(coordinator) && !coordinator.busy && coordinator.handlers == map[]
    {
      this.projectDirectory := projectDirectory;
      coordinator := new BusyState.DelayedBusyState();
      projectPackage := None;
      dependencies := map[];
      orderIndex := [];
      this.configFile := configFile;
      this.stateLock := stateLock;
    }

    /** Lines 121-131: the loop that stops at the first dependency of the project
        whose id is not in the working set. */
    method CheckNewDependencies(projectDeps: seq<D.Dependency>) returns (found: bool)
      ensures found <==> HasUnloaded(IdKey(), projectDeps, dependencies)
    {
      found := false;
      var i := 0;
      while i < |projectDeps|
        invariant 0 <= i <= |projectDeps|
        invariant !found
        invariant forall j :: 0 <= j < i ==> IdKey()(projectDeps[j]) in dependencies
      {
        if projectDeps[i].Id() !in dependencies {
          found := true;
          break;
        }
        i := i + 1;
      }
    }

    /** Lines 108-112: the lock's entries added one by one to the emptied map, each
        read by the JProperty constructor. */
    method ReadStateLock(ps: seq<Prop>) returns (err: Option<Error>)
      requires dependencies == map[]
      modifies this`dependencies
      ensures var r := ReadLock(IdKey(), ps, map[]);
        match r
        case Ok(m) => err.None? && dependencies == m
        case Err(e) => err == Some(e)
    {
      var i := 0;
      while i < |ps|
        invariant 0 <= i <= |ps|
        invariant ReadLock(IdKey(), ps, map[]) == ReadLock(IdKey(), ps[i..], dependencies)
      {
        assert ps[i..][0] == ps[i] && ps[i..][1..] == ps[i + 1..];
        var dep := new D.PackageDependency();
        var e := dep.Load(ps[i].name, ps[i].value, ProjectStateLockName);
        if e.Some? {
          return e;
        }
        var d := dep.Value();
        if dep.id in dependencies {
          return Some(DuplicateKey(dep.id));
        }
        dependencies := dependencies[dep.id := d];
        i := i + 1;
      }
      return None;
    }

    /** LoadDependency: fetch, load the children that are not the dependency itself,
        each one level deeper than the one before, then record the sources and add
        the dependency under its id. */
    method LoadDependency(fetch: D.Dependency -> Result<P.Config>, dep: D.Dependency, depth: int) returns (err: Option<Error>)
      modifies this`dependencies, this`orderIndex
      ensures Outcome(err, Load(fetch, IdKey(), dep, depth, old(Current())), Current())
      decreases Rank(depth)
    {
      if depth > 512 {
        return Some(LoopDetected);
      }
      var fetched := fetch(dep);
      if fetched.Err? {
        return Some(fetched.error);
      }
      var p := fetched.value;
      ghost var start := Current();
      var d := depth;
      var i := 0;
      while i < |p.dependencies|
        invariant 0 <= i <= |p.dependencies| && depth <= d
        invariant LoadChildren(fetch, IdKey(), dep, p.dependencies, depth, start)
          == LoadChildren(fetch, IdKey(), dep, p.dependencies[i..], d, Current())
      {
        var child := p.dependencies[i];
        assert p.dependencies[i..][0] == child && p.dependencies[i..][1..] == p.dependencies[i + 1..];
        if !D.SameAs(child, dep) {
          d := d + 1;
          err := LoadDependency(fetch, child, d);
          if err.Some? {
            return;
          }
        }
        i := i + 1;
      }
      var stored := dep.(sources := p.sources);
      var id := dep.Id();
      if id in dependencies {
        return Some(DuplicateKey(id));
      }
      dependencies := dependencies[id := stored];
      orderIndex := orderIndex + [id];
      return None;
    }

    /** UpdatePackages: the working set emptied and every dependency of the project
        loaded, then the lock written with each one's lock-state form. */
    method UpdatePackages(world: World) returns (err: Option<Error>)
      requires projectPackage.Some?
      modifies this`dependencies, this`orderIndex, this`stateLock
      ensures var u := Update(world, projectPackage.value);
        match u
        case Ok(v) => err.None? && Current() == v.0 && stateLock == Some(v.1)
        case Err(e) => err == Some(e)
    {
      var project := projectPackage.value;
      var fetch := Fetcher(world, project.allowHosts);
      dependencies := map[];
      orderIndex := [];
      err := LoadAllDependencies(fetch, project.dependencies);
      if err.Some? {
        return;
      }
      LoadAllConsistent(fetch, IdKey(), project.dependencies, Empty);
      var entries := WriteLockEntries();
      if entries.Err? {
        return Some(entries.error);
      }
      stateLock := Some(JObject([Prop("dependencies", JObject(entries.value))]));
      return None;
    }

    /** The loop of UpdatePackages that loads each dependency of the project in turn. */
    method LoadAllDependencies(fetch: D.Dependency -> Result<P.Config>, deps: seq<D.Dependency>) returns (err: Option<Error>)
      modifies this`dependencies, this`orderIndex
      ensures Outcome(err, LoadAll(fetch, IdKey(), deps, old(Current())), Current())
    {
      var i := 0;
      while i < |deps|
        invariant 0 <= i <= |deps|
        invariant LoadAll(fetch, IdKey(), deps, old(Current())) == LoadAll(fetch, IdKey(), deps[i..], Current())
      {
        assert deps[i..][0] == deps[i] && deps[i..][1..] == deps[i + 1..];
        err := LoadDependency(fetch, deps[i], 0);
        if err.Some? {
          return;
        }
        i := i + 1;
      }
      assert deps[i..] == [];
      return None;
    }

    /** The loop of UpdatePackages that adds each loaded dependency's lock-state
        form, in load order, to the lock's "dependencies"; JObject.Add throws on a
        name already there. */
    method WriteLockEntries() returns (r: Result<seq<Prop>>)
      requires Consistent(Current())
      ensures r == AddAll(LockEntries(Current()))
    {
      r := AddEach(LockEntries(Current()));
    }

    /** FindProjectPackage: the default configuration is written when the file is
        missing, then the text is parsed and read by a new Package. */
    method FindProjectPackage(world: World) returns (r: Result<P.Config>)
      modifies this`configFile
      ensures r == FindProject(world, old(configFile))
      ensures configFile == Some(ConfigAfter(old(configFile)))
    {
      var document: Json;
      if configFile.None? {
        configFile := Some(DefaultConfigLines);
        document := P.DefaultConfiguration();
        P.DefaultConfigurationIsDefault();
      } else {
        var parsed := world.parse(configFile.value);
        if parsed.None? {
          return Err(MalformedJson(ProjectPackageName));
        }
        document := parsed.value;
      }
      var package := new P.Package();
      var err := package.Load(document);
      if err.Some? {
        return Err(err.value);
      }
      return Ok(package.Value());
    }

    /** RefreshPackages: busy from start to end; an exception leaves the flag set. */
    method RefreshPackages(world: World, loadAgain: bool, neverLoadAgain: bool) returns (err: Option<Error>)
      modifies this, coordinator
      ensures Outcome(err, Refresh(world, old(State()), loadAgain, neverLoadAgain), State())
      ensures err.Some? <==> coordinator.busy
      ensures err.None? ==> coordinator.handlers == map[]
      ensures err.None? ==>
        && |old(coordinator.log)| <= |coordinator.log|
        && coordinator.log[..|old(coordinator.log)|] == old(coordinator.log)
        && BusyState.IsDrainOf(old(coordinator.handlers), coordinator.log[|old(coordinator.log)|..])
      ensures err.Some? ==> coordinator.handlers == old(coordinator.handlers) && coordinator.log == old(coordinator.log)
    {
      coordinator.SetBusy(true);
      err := Reload(world, loadAgain, neverLoadAgain);
      if err.None? {
        coordinator.SetBusy(false);
      }
    }

    /** The body of RefreshPackages between the two changes of the busy flag. */
    method Reload(world: World, loadAgain: bool, neverLoadAgain: bool) returns (err: Option<Error>)
      modifies this`projectPackage, this`configFile, this`dependencies, this`orderIndex, this`stateLock
      ensures Outcome(err, Refresh(world, old(State()), loadAgain, neverLoadAgain), State())
    {
      ghost var s := State();
      var project, again;
      project, again, err := LocateProject(world, loadAgain);
      if err.Some? {
        return;
      }
      err := FinishRefresh(world, s, again && !neverLoadAgain);
    }

    /** Lines 134-137, after the project has been read into `projectPackage`. */
    method FinishRefresh(world: World, ghost s: Snapshot, reload: bool) returns (err: Option<Error>)
      requires projectPackage.Some? && configFile == Some(ConfigAfter(s.config)) && stateLock == s.lock
      modifies this`dependencies, this`orderIndex, this`stateLock
      ensures Outcome(err, Finish(world, s, projectPackage.value, reload, old(Current())), State())
    {
      if reload {
        dependencies := map[];
        orderIndex := [];
        err := UpdatePackages(world);
      } else {
        err := None;
      }
    }

    /** The part of RefreshPackages that `Locate` specifies. */
    method LocateProject(world: World, loadAgain: bool) returns (project: P.Config, again: bool, err: Option<Error>)
      modifies this`projectPackage, this`configFile, this`dependencies, this`orderIndex
      ensures match Locate(world, old(State()), loadAgain)
        case Ok(v) =>
          && err.None? && project == v.0 && again == v.1 && Current() == v.2
          && projectPackage == Some(project) && configFile == Some(ConfigAfter(old(configFile)))
        case Err(e) => err == Some(e)
    {
      var oldDeps := if projectPackage.Some? then projectPackage.value.dependencies else [];
      var found := FindProjectPackage(world);
      if found.Err? {
        return P.Defaults, false, Some(found.error);
      }
      project := found.value;
      projectPackage := Some(project);
      var lock := OpenLock(stateLock);
      if lock.Err? {
        return project, false, Some(lock.error);
      }
      again, err := DecideReload(loadAgain, lock.value, oldDeps, project.dependencies);
    }

    /** Lines 100-131: the reload flag, and the working set replaced by the lock's
        entries when the lock has a "dependencies" object. */
    method DecideReload(loadAgain: bool, lock: Option<seq<Prop>>, oldDeps: seq<D.Dependency>, projectDeps: seq<D.Dependency>)
      returns (again: bool, err: Option<Error>)
      modifies this`dependencies, this`orderIndex
      ensures var r := Decide(IdKey(), loadAgain, lock, oldDeps, projectDeps, old(Current()));
        match r
        case Ok(v) => err.None? && again == v.0 && Current() == v.1
        case Err(e) => err == Some(e)
    {
      again := loadAgain;
      if !again {
        if lock.None? {
          again := true;
        } else {
          var lockDeps := LockDependencies(lock.value);
          if lockDeps.Some? {
            dependencies := map[];
            orderIndex := [];
            err := ReadStateLock(lockDeps.value);
            if err.Some? {
              return;
            }
            again := CheckOldDependencies(lockDeps.value, oldDeps);
          }
        }
        if !again {
          again := CheckNewDependencies(projectDeps);
        }
      }
      return again, None;
    }

    /** InstallDependency: nothing for an id already loaded; otherwise the project
        file is read line by line, edited, written back, and the packages refreshed
        with a forced fetch. Only that refresh touches the busy state: it stays
        busy when the refresh fails, and otherwise drains what was pending. */
    method InstallDependency(world: World, url: string, version: string) returns (err: Option<Error>)
      modifies this, coordinator
      ensures var r := Install(world, old(State()), url, version);
        match r
        case Ok(v) => err.None? && State() == v
        case Err(e) => err == Some(e)
      ensures !Refreshes(old(State()), url, version) ==>
        && coordinator.busy == old(coordinator.busy)
        && coordinator.handlers == old(coordinator.handlers)
        && coordinator.log == old(coordinator.log)
      ensures Refreshes(old(State()), url, version) ==> (err.Some? <==> coordinator.busy)
      ensures Refreshes(old(State()), url, version) && err.Some? ==>
        coordinator.handlers == old(coordinator.handlers) && coordinator.log == old(coordinator.log)
      ensures Refreshes(old(State()), url, version) && err.None? ==>
        && coordinator.handlers == map[]
        && |old(coordinator.log)| <= |coordinator.log|
        && coordinator.log[..|old(coordinator.log)|] == old(coordinator.log)
        && BusyState.IsDrainOf(old(coordinator.handlers), coordinator.log[|old(coordinator.log)|..])
    {
      var id := D.GenerateId(url, version);
      if id in dependencies {
        return None;
      }
      if configFile.None? {
        return Some(MissingFile(ProjectPackageName));
      }
      var edited := EditConfig(configFile.value, url, version);
      if edited.Err? {
        return Some(edited.error);
      }
      var lines := edited.value;
      configFile := Some(lines);
      err := RefreshPackages(world, true, false);
    }
  }
}
