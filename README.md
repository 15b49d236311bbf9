# WLPM core in Dafny

WLPM (Warcraft 3 Lua Package Manager) reads a project's `wlpm-package.json` and
resolves its dependencies. A dependency is either a Github/Bitbucket repository or
a single Lua file. WLPM records what it resolved in `.wlpm/state.lock.json`. It then
bundles every dependency's Lua code and the project's own sources into the target
map script, between a pair of `wlpm-generated-code` markers. A small "delayed busy
state" coordinator keeps rebuilds and refreshes from overlapping: while an owner is
busy, requests are parked under a key, and the last request per key runs once the
owner is free again.

The model has one module per core source file:

| module | file | form |
|---|---|---|
| `BusyState` | `busy_state.dfy` | class `DelayedBusyState` (handler map, busy flag, invocation log) |
| `Repository` | `repository.dfy` | pure: providers, URL recognition, archive URLs |
| `Dependencies` | `package_dependency.dfy` | value `Dependency`, id generation, JSON reading and writing; class `PackageDependency` with the setters |
| `Packages` | `package.dfy` | value `Config`, `FromJson`/`ToJson`; class `Package` whose reading methods loop over the JSON |
| `Resolver` | `package_manager.dfy` | specification functions (`Load`, `LoadAll`, `Decide`, `Refresh`, `Install`, ...) and class `PackageManager` whose methods are proved against them |
| `Bundler` | `module_manager.dfy` | specification functions (`RemoveBetween`, `SourcesCode`, `DependencyCode`, `Segments`, `Rebuild`) and class `ModuleManager` |
| `Cli` | `application.dfy` | class `Application`: dispatch, retry loop, watcher event filters |

Helper modules: `Wrappers` (Option, Result, and one `Error` constructor per
exception message), `Strings`, `Paths` (the parts of `Path.Combine`,
`GetFileName` and `GetFileNameWithoutExtension` the core relies on) and `Json`
(a JSON value as a Newtonsoft `JToken` would hold it, with ordered properties).

The outside world becomes parameters. Disk reads are a `Disk` of directory trees
and file texts. Downloads and URL parsing are a `World`. Clocks are integers.
A callback is an opaque `Handler` id. Exceptions become `Err` values; the state an
exception leaves behind is modelled where the source relies on it (a busy flag that
stays set).

## Model

| member | source | states |
|---|---|---|
| Repository.GetZipFileUrl | Repository/Provider/Github.cs:12-25 | fails with "Wrong repository URL" exactly when the URL path splits into fewer than three '/'-separated segments |
| Repository.ZipUrlSegments | Repository/Provider/Bitbucket.cs:12-25 | for a valid path, the archive URL's segments are the host, segments 1 and 2 of the path (user, repository), then `zipball/<v>` on Github or `get/<v>.zip` on Bitbucket; `<v>` is the version, or `master`/`HEAD` for `*` or empty |
| Repository.ProvidersDisjoint | Repository/Provider/Github.cs:8-11 | no URL is identified by both Github and Bitbucket, so getProvider returns each provider exactly for the URLs that provider identifies |
| Repository.FirstMatch | Repository/RepositoryManager.cs:17-25 | the index found identifies the URL and every earlier provider rejects it; nothing is found iff no provider identifies the URL |
| Repository.GetProvider | Repository/RepositoryManager.cs:10-25 | a provider returned recognises the URL; Github is asked first, so Bitbucket is returned only when Github rejects; null iff neither recognises it |
| Repository.GithubExamples | Repository/Provider/Github.cs:8-11 | both `https://github.com/` and `https://raw.githubusercontent.com/` URLs go to Github |
| Repository.BitbucketExample | Repository/Provider/Bitbucket.cs:8-11 | a `https://bitbucket.org/` URL goes to Bitbucket |
| Repository.UnknownHostExamples | Repository/RepositoryManager.cs:24 | another host, and `http://github.com`, get no provider |
| BusyState.DelayedBusyState.constructor | DelayedBusyState.cs:21-26 | a new coordinator is free and has no pending handlers |
| BusyState.DelayedBusyState.SetBusy | DelayedBusyState.cs:12-20 | setting busy keeps the pending handlers; clearing it runs every pending handler once (a drain of the old map appended to the log) and empties the map |
| BusyState.DelayedBusyState.InvokeASAP | DelayedBusyState.cs:31-44 | the handler replaces any pending one under its key; when busy it only waits, when free the whole map, with it, is drained |
| BusyState.DelayedBusyState.InvokeAll | DelayedBusyState.cs:46-53 | each pending handler is run exactly once, in some order, and removed |
| BusyState.DelayedBusyState.UnsubscribeASAPEvent | ModuleManager.cs:118 | the pending handler under the key is dropped, the others are kept |
| BusyState.DrainRunsPendingOnce | DelayedBusyState.cs:46-53 | in a drain, the handlers run under a key are exactly the one pending under it, or none |
| BusyState.Coalesce | DelayedBusyState.cs:31-44 | a burst of requests under one key while busy, followed by clearing busy, runs only the last request, once, and every other pending key's handler once |
| Dependencies.StripScheme | PackageDependency.cs:147-150 | removing "https", "http" and "://" introduces no character absent from the input |
| Dependencies.IdSource | PackageDependency.cs:143-150 | once the dots of `resource--version` become '_' and the schemes are stripped, no '.' is left |
| Dependencies.Sanitize | PackageDependency.cs:151-161 | same length; '/' becomes '.', each file-name-hostile character becomes '_', the rest is kept |
| Dependencies.IdShape | PackageDependency.cs:141-170 | a generated id holds no '/', none of the other characters generateId replaces (angle brackets, colon, backslash, vertical bar, question mark, star, tab, space, NUL), and never ends with '.' |
| Dependencies.IdDots | PackageDependency.cs:141-170 | the dots of an id sit exactly where the scheme-stripped source had '/'; the id is at most one '_' longer |
| Dependencies.FromProperty | PackageDependency.cs:68-108 | a string value gives a Package dependency named by the trimmed property name, iff the version is supported; neither string nor object is an error naming the package and the property; every result is trimmed with a supported version; without "resource" the property name is the resource |
| Dependencies.FromObject | PackageDependency.cs:79-104 | every result is well formed; without a "resource" field the trimmed property name is the resource |
| Dependencies.Head | PackageDependency.cs:81-84 | the resource read is trimmed and the version read is supported |
| Dependencies.ResourceField | PackageDependency.cs:81 | no "resource" field means the property name |
| Dependencies.VersionField | PackageDependency.cs:82-84 | a version read is supported; none given means "*" |
| Dependencies.TypeField | PackageDependency.cs:85-96 | no "type" field means Package |
| Dependencies.TopOrderField | PackageDependency.cs:97-99 | no "topOrder" field means false |
| Dependencies.SourcesField | PackageDependency.cs:100-104 | anything but an array under "sources" means no sources |
| Dependencies.ParseVersion | PackageDependency.cs:23-31 | accepted iff a string without `^`, `+` or a `*` beside other characters, and then taken as is |
| Dependencies.ParseType | PackageDependency.cs:86-95 | "file" and "package" are accepted, each mapped to its type; any other string is the "must be 'file' or 'package'" error |
| Dependencies.ToJson | PackageDependency.cs:118-139 | state form is keyed by id, manifest form by resource; the short `"resource": "version"` form is used iff not state form, Package type and not topOrder |
| Dependencies.ObjectProps | PackageDependency.cs:120-135 | the object holds type and topOrder, version only for a Package, and in state form the resource and the sources, in that order |
| Dependencies.ToJsonRoundTrip | PackageDependency.cs:68-139 | reading back what ToJson wrote gives the dependency again; a File's version comes back "*", and sources come back only from the state form |
| Dependencies.ObjectRoundTrip | PackageDependency.cs:79-135 | the same round trip for the object form |
| Dependencies.SameAs | PackageDependency.cs:110-116 | equal resource, type, version and topOrder; such dependencies have the same id and the same manifest entry |
| Dependencies.PackageDependency.constructor | PackageDependency.cs:41-48 | a new dependency is a Package, version "*", not topOrder, empty resource and sources |
| Dependencies.PackageDependency.SetResource | PackageDependency.cs:15-21 | the resource is stored trimmed and the id recomputed |
| Dependencies.PackageDependency.SetVersion | PackageDependency.cs:23-32 | an unsupported version throws and changes nothing; otherwise it is stored and the id recomputed |
| Dependencies.PackageDependency.Load | PackageDependency.cs:68-108 | the JProperty constructor: succeeds iff FromProperty does, with its error, and leaves the object equal to FromProperty's dependency |
| Dependencies.PackageDependency.LoadString | PackageDependency.cs:75-78 | string form: version set before resource, so an unsupported version throws with an empty resource name |
| Dependencies.PackageDependency.LoadObject | PackageDependency.cs:79-104 | object form agrees with FromObject, error included |
| Dependencies.PackageDependency.LoadResourceAndVersion | PackageDependency.cs:81-84 | resource then version, as Head reads them |
| Dependencies.PackageDependency.LoadRest | PackageDependency.cs:85-104 | type, topOrder and sources, as Rest reads them |
| Dependencies.PackageDependency.LoadSources | PackageDependency.cs:100-104 | appends every source string; a non-string item throws |
| Packages.Scalars | Package.cs:53-73 | reading the scalar properties leaves the dependency, source and host lists empty |
| Packages.ParseEach | Package.cs:78-80 | as many results as inputs |
| Packages.ParseEachOk | Package.cs:78-80 | the loop over the items succeeds iff every item parses |
| Packages.ParseDependency | Package.cs:79 | each dependency is read by the JProperty constructor with the package title |
| Packages.DependenciesField | Package.cs:74-81 | no "dependencies" means none; a non-object value is the "must be an object" error |
| Packages.AllowHostsField | Package.cs:82-89 | no "allowHosts" means none; a non-array value is the "must be an array" error |
| Packages.FromJson | Package.cs:29-33 | a document that is not an object is an error |
| Packages.WithLists | Package.cs:74-94 | the lists leave the scalars as they were; success implies a well-typed "dependencies" and "allowHosts"; a "sources" that is not an array is ignored |
| Packages.FromJsonOverrides | Package.cs:49-95 | every scalar read is the document's value where present and the initDefaults value where absent |
| Packages.ScalarsOverride | Package.cs:53-73 | the same for the scalar pass alone |
| Packages.HeaderOverrides | Package.cs:53-61 | title, author and license override their defaults |
| Packages.SettingsOverride | Package.cs:62-70 | target, afterBuild and sourceExtensions override their defaults |
| Packages.StringFieldOverrides | Package.cs:53-55 | one string property overrides its default |
| Packages.EmptyDocument | Package.cs:35-47 | an empty object reads as the initDefaults configuration |
| Packages.DefaultConfiguration | Package.cs:135-138 | the default configuration text is an object |
| Packages.DefaultConfigurationIsDefault | Package.cs:135-138 | reading the default configuration gives the defaults |
| Packages.DefaultConfigurationLacks | Package.cs:137 | the default configuration has no property other than title and dependencies |
| Packages.DependencyEntries | Package.cs:110-112 | one manifest entry per dependency, named by its resource |
| Packages.DependencyProps | Package.cs:109-113 | building the "dependencies" object gives those entries, or a duplicate-key error |
| Packages.DependencyPropsOk | Package.cs:109-113 | it fails iff two dependencies share a resource |
| Packages.Entries | Package.cs:97-132 | one candidate property per key, in the order ToJson adds them |
| Packages.ToJson | Package.cs:97-133 | the result is an object |
| Packages.ToJsonOk | Package.cs:109-113 | ToJson throws iff two dependencies share a resource, and then with a duplicate key |
| Packages.ToJsonFinds | Package.cs:97-132 | each key holds its value exactly when ToJson emits it |
| Packages.ToJsonDescribes | Package.cs:97-132 | the object always has "dependencies"; it has every other property iff that property is non-empty and not the default |
| Packages.ToJsonRoundTrip | Package.cs:49-133 | reading back ToJson's object gives the configuration again, up to each dependency's manifest form, for non-empty title, target and extensions and distinct resources |
| Packages.ReadDescribed | Package.cs:49-95 | any object that holds exactly what ToJson emits reads back as that configuration |
| Packages.ParseWritten | Package.cs:78-80 | written manifest entries parse back one by one |
| Packages.Package.constructor | Package.cs:24-27 | a new package has the defaults |
| Packages.Package.InitDefaults | Package.cs:35-47 | every field is reset to its default |
| Packages.Package.Load | Package.cs:29-33 | the JSON constructor succeeds iff FromJson does, with its error, and holds FromJson's configuration |
| Packages.Package.ReadJson | Package.cs:49-95 | fromJson, proved against FromJson |
| Packages.Package.ReadLists | Package.cs:74-94 | the three list loops, proved against WithLists |
| Packages.Package.ReadScalars | Package.cs:53-73 | the scalar assignments, proved against Scalars |
| Packages.Package.ReadHeader | Package.cs:53-61 | title, author and license |
| Packages.Package.ReadSettings | Package.cs:62-73 | target, afterBuild, sourceExtensions and insertModuleLoader |
| Packages.Package.ReadDependencies | Package.cs:74-81 | the dependency loop, proved against DependenciesField |
| Packages.Package.ReadDependency | Package.cs:79 | one `new PackageDependency(d, Title)`: the dependency built is FromProperty's, or its error is reported |
| Packages.Package.ReadAllowHosts | Package.cs:82-89 | the host loop, proved against AllowHostsField |
| Packages.Package.ReadSources | Package.cs:90-94 | the source loop, proved against SourcesField |
| Json.Get | Package.cs:53 | absent iff no property has the name; a value found is one of the object's properties |
| Json.AddAll | PackageManager.cs:158-161 | adding properties one by one gives them all, or fails with a duplicate key |
| Json.AddAllOk | PackageManager.cs:158-161 | the adds succeed iff the names are distinct |
| Json.AddEach | PackageManager.cs:158-161 | the loop of JObject.Add calls, proved against AddAll |
| Json.AsStrings | PackageDependency.cs:100-104 | a string list is read iff every item is a string, and then item for item |
| Json.StringArrayRoundTrip | PackageDependency.cs:130-134 | a written string array reads back as the same list |
| Strings.Trim | PackageDependency.cs:18 | the result has no white space at either end and sits in the input with only white space before and after it, so exactly the leading and trailing white space is dropped; a trimmed input is kept |
| Strings.TrimIdempotent | PackageDependency.cs:18 | trimming twice is trimming once |
| Strings.IndexOf | ModuleManager.cs:219 | the first occurrence, or none iff the pattern does not occur |
| Strings.Split | Repository/Provider/Github.cs:15 | at least one piece, no piece holds the separator, and joining the pieces gives the input |
| Paths.Combine | PackageManager.cs:35 | an empty second part gives the first, a rooted one replaces it, otherwise the result starts with the first and ends with the second |
| Paths.FileName | PackageManager.cs:213 | the last component: holds no separator and ends the path |
| Paths.FileNameWithoutExtension | PackageManager.cs:213 | a prefix of the file name |
| Resolver.DependencyDirShape | PackageManager.cs:33-36 | the package directory of a dependency is named by its id, sits under the project directory and has no trailing separator |
| Resolver.DependencyFileShape | PackageManager.cs:38-41 | a file dependency lives at `<dependency dir>/src/file.lua` |
| Resolver.FilePackage | PackageManager.cs:210-213 | a downloaded file becomes a package with source "src" and the file's base name as its title |
| Resolver.Download | PackageManager.cs:188-238 | a file is accepted iff its resource is non-empty, a provider knows it or its host is allowed, and its download succeeds; a rejected host is the "wrong URL host" error and a failed download the download error for the resource; a package with no provider is the "no suitable repository provider" error; otherwise the archive URL is the provider's GetZipFileUrl of the resource's path and version, and a failed download of it, a missing manifest, or the manifest read as a package follow |
| Resolver.Insert | PackageManager.cs:185 | Dictionary.Add: fails iff the key is present; otherwise adds exactly that entry and appends it to the order index |
| Resolver.InsertConsistent | PackageManager.cs:185 | adding keeps the order index and the map in step |
| Resolver.Load | PackageManager.cs:166-186 | a loaded dependency was fetched at depth at most 512, was absent and is now present, holds the fetched package's sources, is last in the order index, and nothing earlier changed |
| Resolver.LoadChildren | PackageManager.cs:179-183 | every child other than the parent itself is loaded; depth grows by one per loaded sibling and stays within 512 |
| Resolver.LoadConsistent | PackageManager.cs:166-186 | loading keeps the order index and the map in step |
| Resolver.ChildrenFirst | PackageManager.cs:179-185 | every child is in the order index before its parent |
| Resolver.CycleDetected | PackageManager.cs:168-170 | a dependency cycle ends in "Dependency loop detected" |
| Resolver.MutualDependency | PackageManager.cs:168-181 | two packages that depend on each other give the loop error |
| Resolver.SelfReferenceSkipped | PackageManager.cs:180 | a package that lists itself loads |
| Resolver.WideFails | PackageManager.cs:181 | more than 512 loadable children fail, because depth grows per sibling |
| Resolver.LoadPresentFails | PackageManager.cs:185 | loading a dependency already present throws on Add |
| Resolver.LoadAll | PackageManager.cs:154-156 | every project dependency is loaded and nothing earlier is lost |
| Resolver.LoadAllConsistent | PackageManager.cs:154-156 | loading all keeps the order index and the map in step |
| Resolver.RepeatedDependencyFails | PackageManager.cs:154-156 | two project dependencies with the same id make the update throw |
| Resolver.LoadAllPresentFails | PackageManager.cs:154-156 | a project dependency already loaded makes the update throw |
| Resolver.LockEntriesDistinct | PackageManager.cs:158-161 | the entries written to the lock have distinct names |
| Resolver.OpenLock | PackageManager.cs:279-288 | no lock file means no lock; a lock document is usable iff it is an object |
| Resolver.ReadLock | PackageManager.cs:107-112 | reading the lock keeps what was there, and adds only well-formed entries stored under their own key |
| Resolver.LockEntry | PackageManager.cs:110 | a lock entry read is well formed |
| Resolver.LockEntryRoundTrip | PackageManager.cs:110 | a dependency written in state form reads back unchanged |
| Resolver.LockRoundTrip | PackageManager.cs:107-112 | reading the entries UpdatePackages wrote gives back the loaded map |
| Resolver.Decide | PackageManager.cs:100-131 | loadAgain or no lock forces a fetch; a lock without a "dependencies" object keeps the map and fetches iff a project dependency is missing; otherwise the map becomes the lock's entries, a read error is passed on, and a fetch is forced iff an old dependency's resource is not a lock key or a project dependency's id is not loaded |
| Resolver.FreshLockKept | PackageManager.cs:100-131 | a lock written by an update that covers the project is used as is, with no fetch |
| Resolver.UrlDependencyForcesReload | PackageManager.cs:113-118 | the lock is keyed by ids, which hold no '/', but looked up by resource; so any old dependency whose resource is a URL forces a fetch |
| Resolver.LoadKeyedBy | PackageManager.cs:185 | every loaded entry is stored under its own id |
| Resolver.Update | PackageManager.cs:143-164 | succeeds iff loading all project dependencies does; the map and order index kept step, every project dependency is loaded, and the lock document is the state form of every loaded entry |
| Resolver.LoadedLockable | PackageManager.cs:154-161 | after a successful load the lock object can always be built |
| Resolver.FindProject | PackageManager.cs:240-261 | a missing file reads as the defaults; text that is not JSON is an error; otherwise the package read from the document |
| Resolver.Refresh | PackageManager.cs:78-141 | on success the project is the one read, and the configuration file exists |
| Resolver.Finish | PackageManager.cs:134-137 | without a reload the map and lock stay as decided |
| Resolver.Locate | PackageManager.cs:87-131 | the project decided on is the one read |
| Resolver.RefreshWritesLock | PackageManager.cs:134-137 | the lock changes only through an update, and then describes a consistent map that covers the project; neverLoadAgain keeps the lock; loadAgain without neverLoadAgain always updates |
| Resolver.FirstRefreshUsesLock | PackageManager.cs:100-131 | on a first refresh, a lock that covers the project is used without fetching |
| Resolver.LaterRefreshFetches | PackageManager.cs:87-118 | on a later refresh, a URL dependency of the previous project always makes it fetch again |
| Resolver.VersionText | PackageManager.cs:59 | the version written is "*" for "*" and for the empty version, and the given one otherwise |
| Resolver.WithEntryLength | PackageManager.cs:55-61 | one line is added after each "dependencies" marker line |
| Resolver.WithEntryAt | PackageManager.cs:55-61 | every line is kept in order, and the new entry follows each marker |
| Resolver.NoMarkerUnchanged | PackageManager.cs:55-61 | without a marker the lines are copied unchanged |
| Resolver.InstallLines | PackageManager.cs:55-70 | with a marker, the entry with a trailing comma goes after each one; without, the first line is dropped and `},`, the entry, `"dependencies": {` and `{` are prepended in that reversed order; an empty file is an error |
| Resolver.Install | PackageManager.cs:43-76 | an id already loaded changes nothing; a missing file is an error; otherwise the edited configuration is refreshed with loadAgain |
| Resolver.InstallRefetches | PackageManager.cs:74 | a successful install writes the edited lines and a lock describing a map that covers the new project |
| Resolver.ReadLines | PackageManager.cs:55-61 | the read loop, proved against WithEntry, and whether a marker was found |
| Resolver.CheckOldDependencies | PackageManager.cs:113-118 | the loop finds a missing resource iff MissingFromLock holds |
| Resolver.EditConfig | PackageManager.cs:50-72 | the line edit, proved against InstallLines |
| Resolver.PackageManager.constructor | PackageManager.cs:25-31 | no project, no dependencies, a free coordinator |
| Resolver.PackageManager.CheckNewDependencies | PackageManager.cs:121-131 | finds a dependency iff some project dependency's id is not loaded |
| Resolver.PackageManager.ReadStateLock | PackageManager.cs:107-112 | the map becomes the lock's entries, or the read error is reported |
| Resolver.PackageManager.LoadDependency | PackageManager.cs:166-186 | the recursive method, proved against Load |
| Resolver.PackageManager.UpdatePackages | PackageManager.cs:143-164 | the map, the order index and the lock become Update's result, or its error is reported |
| Resolver.PackageManager.LoadAllDependencies | PackageManager.cs:154-156 | the loop, proved against LoadAll |
| Resolver.PackageManager.WriteLockEntries | PackageManager.cs:158-161 | building the lock object from the loaded map |
| Resolver.PackageManager.FindProjectPackage | PackageManager.cs:240-261 | proved against FindProject; the configuration file exists afterwards |
| Resolver.PackageManager.RefreshPackages | PackageManager.cs:78-141 | the new state is Refresh's result, or its error is reported; busy stays set iff an error was raised; a clean refresh runs every handler pending at entry exactly once (clearing isBusy drains them) and leaves nothing pending, while a failed one runs none and keeps them pending |
| Resolver.PackageManager.Reload | PackageManager.cs:87-137 | the refresh without the busy flag, proved against Refresh |
| Resolver.PackageManager.FinishRefresh | PackageManager.cs:134-137 | the reload step, proved against Finish |
| Resolver.PackageManager.LocateProject | PackageManager.cs:87-131 | reading the project and deciding, proved against Locate |
| Resolver.PackageManager.DecideReload | PackageManager.cs:100-131 | proved against Decide |
| Resolver.PackageManager.InstallDependency | PackageManager.cs:43-76 | the new state is Install's result, or its error is reported; the busy state is untouched unless the install reaches RefreshPackages, and then it stays busy iff the refresh fails, a failed refresh runs no handler, and a clean one runs every handler pending at entry exactly once |
| Bundler.RemoveBetween | ModuleManager.cs:217-228 | no start tag keeps the text; a start tag without an end tag is an error; otherwise the result is the text before the first start tag followed by the text after the first end tag, so its length drops by the distance from the start tag to the end of the end tag (the span is cut when the end tag follows the start tag and repeated when it precedes it) |
| Bundler.EndBeforeStartRepeats | ModuleManager.cs:217-228 | an end tag in front of the start tag makes the text longer: "e-s" with start "s" and end "e" becomes "e--s" |
| Bundler.ComposeRoundTrip | ModuleManager.cs:109 | cutting the generated block out of a written target gives back the user's part of the file |
| Bundler.Header | ModuleManager.cs:71-92 | starts with the version and build-time comments and ends with a blank line; the loader, when inserted, goes on its own line before that blank line |
| Bundler.GlobLiteral | ModuleManager.cs:164 | a pattern without wildcards matches only its own name |
| Bundler.GlobOptional | ModuleManager.cs:164 | a leading `?` matches zero or one character |
| Bundler.GlobSuffix | ModuleManager.cs:164 | `*.ext` matches exactly the names ending in `.ext` |
| Bundler.NestedFilesRepeated | ModuleManager.cs:162-179 | a subdirectory's files are emitted at least twice: once from the recursive listing and again by the recursion |
| Bundler.FlatDirectoryOnce | ModuleManager.cs:162-179 | a directory without subdirectories emits each matching file once |
| Bundler.Lookup | ModuleManager.cs:162-164 | the trees of all source directories, or the error for the first one missing |
| Bundler.SourcesCode | ModuleManager.cs:154-183 | fails iff some source directory is missing |
| Bundler.ListFiles | ModuleManager.cs:165-177 | the per-file loop, proved against Listing |
| Bundler.CodeForTrees | ModuleManager.cs:160-182 | the recursive directory walk, proved against EmittedDirs |
| Bundler.CodeForSources | ModuleManager.cs:154-183 | GetCodeFor(dirs), proved against SourcesCode |
| Bundler.DependencyCode | ModuleManager.cs:185-215 | the code is wrapped in the dependency's start and end tags; it fails iff a package with sources has no directory, or a file dependency has no file |
| Bundler.PackageFilesPerSource | ModuleManager.cs:195-209 | a package's files are emitted once per source entry |
| Bundler.CodeForDependency | ModuleManager.cs:185-215 | GetCodeFor(dep), proved against DependencyCode |
| Bundler.SourceDirs | ModuleManager.cs:196-199 | one copy of the dependency directory per source |
| Bundler.PackageFiles | ModuleManager.cs:201-204 | the listings of those directories, concatenated |
| Bundler.JoinBodies | ModuleManager.cs:206-209 | the file bodies, each after a blank line |
| Bundler.SegmentsOk | ModuleManager.cs:94-105 | the segments build iff every index is in the map and every dependency's code builds |
| Bundler.SegmentsStops | ModuleManager.cs:94-105 | the first failure ends the loop |
| Bundler.FirstMissingFails | ModuleManager.cs:95-97 | an index missing from the map is the "no index" error |
| Bundler.SegmentsPartition | ModuleManager.cs:100-104 | topOrder dependencies go to the top section, the rest to the bottom, each in index order |
| Bundler.AssembleSegments | ModuleManager.cs:94-105 | the loop, proved against Segments |
| Bundler.Rebuild | ModuleManager.cs:50-125 | the target starts with the start tag; it fails iff cleaning the old target, a dependency or the project sources fails |
| Bundler.RebuildStable | ModuleManager.cs:69 | rebuilding over a file a rebuild wrote, with nothing else changed, writes the same file |
| Bundler.ModuleManager.constructor | ModuleManager.cs:21-27 | the recorded target time is the current time |
| Bundler.ModuleManager.Clear | ModuleManager.cs:37-41 | the recorded time is the current time; the AddDays(-1) result is discarded |
| Bundler.ModuleManager.RebuildModules | ModuleManager.cs:29-35 | the rebuild is posted on the package manager's coordinator: it waits while a refresh is busy, or runs at once |
| Bundler.ModuleManager.RebuildTarget | ModuleManager.cs:50-125 | writes Rebuild's text; on failure busy stays set and nothing pending runs; on success the rebuild key is unsubscribed, the others run, and only a write time other than the recorded one counts as an outside change |
| Cli.HasArg | Application.cs:91-97 | true iff the key is one of the arguments |
| Cli.DispatchFirstKeyword | Application.cs:54-75 | the command is that of the first of build, install, watch, update present; "Wrong command" iff none is |
| Cli.InstallArguments | Application.cs:60-66 | install takes the URL from the second argument, and the version from the third or "*" |
| Cli.ReallyChanged | Application.cs:335-345 | a file counts as changed only when seen before and now newer |
| Cli.RepeatedEventIgnored | Application.cs:335-345 | a second event at the same time is ignored |
| Cli.LaterEventCounts | Application.cs:335-345 | a file seen at some time counts as changed exactly at later times |
| Cli.LastFailure | Application.cs:76-86 | the last failed attempt before a bound, or none iff none failed |
| Cli.Application.constructor | Application.cs:15-19 | no retry yet and an empty change cache |
| Cli.Application.CheckIsFileReallyChanged | Application.cs:335-345 | answers ReallyChanged and records the new time |
| Cli.Application.OnTargetChanged | Application.cs:188-211 | a rebuild is posted iff the file really changed, its write time is not the bundler's own, and the name ends with the target; the busy flag is unchanged; while busy the rebuild replaces the pending one under its key and nothing runs; while idle every pending handler and the rebuild run exactly once and nothing stays pending |
| Cli.Application.OnSrcChanged | Application.cs:213-235 | a rebuild is posted iff the source file really changed; the busy flag is unchanged; while busy the rebuild replaces the pending one under its key and nothing runs; while idle every pending handler and the rebuild run exactly once and nothing stays pending |
| Cli.Application.OnPackageChanged | Application.cs:237-264 | only the project package file is considered; a refresh is posted iff it really changed; the busy flag is unchanged; while busy the refresh replaces the pending one under its key and nothing runs; while idle every pending handler and the refresh run exactly once and nothing stays pending |
| Cli.Application.Run | Application.cs:54-88 | no arguments: nothing runs; otherwise up to three attempts, stopping at the first that completes (under "watch" the process exits once the watch session ends); done iff one of the three attempts completes, and then the last attempt run is the first that completes and every earlier one failed; otherwise all three ran; the recorded target time is the one from the last failed attempt's Clear |

## Left out

- File and network I/O: reading and writing files, unzipping and the tmp directories become the `Disk` and `World` parameters. A download is reduced to whether it succeeds (`World.downloads`) and, for an archive, which manifest it holds (`World.archiveManifest`); the bytes written and the unzipped tree are not modelled. `refreshPackageDir` and `EmptyDir` only create and clear directories, so they are not modelled.
- JSON text parsing (`JObject.Parse`) is the `World.parse` parameter. Duplicate property names in parsed text are not modelled: `Json.Get` returns the first one.
- Resolver.Download: a dependency's wlpm-package.json is held as its parsed document (`World.archiveManifest`). A manifest whose text is not JSON, on which `new Package(...)` throws (`PackageManager.cs:235`, `Package.cs:51`), cannot be expressed.
- Resolver.OpenLock: state.lock.json is held as its parsed document (`Snapshot.lock`, `PackageManager.stateLock`). A lock whose text is not JSON, on which `JObject.Parse` throws (`PackageManager.cs:287`), cannot be expressed. Only a document that is not an object is rejected.
- Newtonsoft's lenient casts (a number read as a string, "true" read as a bool) are not modelled. Only a JSON string is accepted as a string and only a JSON bool as a bool.
- `Uri` parsing is the `World.uri` parameter, and `DateTime.Now` formatting is the `buildTime` text.
- `File.GetLastWriteTimeUtc` and `File.GetLastAccessTimeUtc` are integer parameters.
- Retry loops with `Thread.Sleep` (30 attempts to read or write the target, 3 to read the configuration) are left out. A read either succeeds or the file is missing. GetCodeFor(dirs) silently skips a file that stays unreadable; that case is not modelled.
- Console output, colours, verbose logging and the help text are left out.
- `ExecuteAfterBuild` runs a shell command, and the Lua loader text of `GetClientScript` is an opaque string.
- Concurrency: `ConcurrentDictionary` and watcher threads are left out. Events arrive as method calls, and `invokeAll`'s order is any order.
- BusyState.DelayedBusyState.InvokeAll: a handler is an identity with no effect, so re-entrant handlers are not modelled. A handler that calls `invokeASAP` or sets `isBusy` on the state that is draining it is not modelled. Examples are a re-queue of its own key while the state is busy, or `RefreshPackages`' nested drain when it clears `isBusy` (`Application.cs:244-249`). Entries added to the dictionary while it is being enumerated are also not modelled. The contract covers only the handlers pending when the drain starts.
- BusyState.DelayedBusyState.SetBusy: clearing the flag drains only the handlers pending at that moment; the effects of those handlers, such as the bundler's rebuild posting on the package manager (`ModuleManager.cs:31`), are composed by the caller, not by the drain.
- Bundler.ModuleManager.RebuildTarget: `UnsubscribeASAPEvent` is not defined in `DelayedBusyState.cs`. It is taken to remove the key.
- `DependenciesOrderIndex` is read by `ModuleManager.cs` but not declared in `PackageManager.cs`. It is modelled as a field that `LoadDependency` appends to and every `Dependencies.Clear()` empties. After a lock-only refresh it is therefore empty.
- `PackageManager.cs:160` calls `toJson(true)`. It is taken as `ToJson(asState: true)`.
- `pm.Clear()` (`Application.cs:84`) is not defined in `PackageManager.cs`, so `Cli.Application.Run` only clears the bundler.
- Cli.Application.Run: whether an attempt throws is the input `fails`. What the attempt does is modelled by the package manager and bundler methods, not composed here.
- Aliasing: `LoadDependency` assigns `dep.Sources = p.Sources` on the very object held by `ProjectPackage`. The model stores a copy in the map and does not change the project's dependency.
- `Path.Combine`, `GetFileName` and `GetFileNameWithoutExtension` are modelled for '/' separators only. Glob patterns support `*` (any run) and `?` (zero or one character) over exact characters: the case-insensitive matching of Windows file systems and the 8.3 file-name quirks are not modelled. A `?` may match no character anywhere in the model, while .NET lets it match nothing only at the end of the name or before a `.`.
- `Directory.GetFiles` order is taken as the order of the `Tree`'s files. Subdirectories are the full paths `Directory.GetDirectories` returns, which `Path.Combine` keeps; the model descends into them as the `Tree`'s subtrees rather than looking them up again by path.
- `string.IndexOf` is culture-sensitive in .NET. The model compares ordinally.
