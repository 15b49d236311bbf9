/** Application.cs: the command line front end. It picks a command from the
    arguments, retries a failing run up to three times, and filters the file
    watcher's events before it schedules rebuilds. The watchers themselves are not
    modelled: their events arrive as method calls, with the file times as integers. */
module Cli {
  import opened Wrappers
  import opened Strings
  import R = Resolver
  import Bundler
  import BusyState

  const Attempts: nat := 3
  const RefreshKey: string := "PackageManager.RefreshPackages"

  // ---------------------------------------------------------------------------
  // Commands

  /** hasArg. */
  method HasArg(args: seq<string>, key: string) returns (found: bool)
    ensures found <==> key in args
  {
    for i := 0 to |args|
      invariant key !in args[..i]
    {
      if args[i] == key {
        return true;
      }
      assert args[..i + 1] == args[..i] + [args[i]];
    }
    assert args[..|args|] == args;
    return false;
  }

  datatype Command =
    | Usage                                  // no arguments: the help text
    | Build
    | Install(url: string, version: string)
    | InstallFormat                          // "install" without a URL
    | Watch
    | Update
    | Wrong

  /** The command a run performs (lines 26-75). */
  function Dispatch(args: seq<string>): Command {
    if |args| < 1 then Usage
    else if "build" in args then Build
    else if "install" in args then
      if |args| < 2 then InstallFormat
      else Install(args[1], if |args| > 2 then args[2] else "*")
    else if "watch" in args then Watch
    else if "update" in args then Update
    else Wrong
  }

  /** The keywords in the order the run tests them. */
  const Priority: seq<string> := ["build", "install", "watch", "update"]

  function Keyword(c: Command): string {
    match c
    case Build => "build"
    case Install(_, _) => "install"
    case InstallFormat => "install"
    case Watch => "watch"
    case Update => "update"
    case _ => ""
  }

  /** The command is the one of the first keyword of `Priority` present in the
      arguments, and Wrong when none is. */
  lemma DispatchFirstKeyword(args: seq<string>)
    requires |args| >= 1
    ensures var c := Dispatch(args);
      (c == Wrong <==> forall k :: 0 <= k < |Priority| ==> Priority[k] !in args)
      && (c != Wrong ==> exists k :: (0 <= k < |Priority| && Priority[k] == Keyword(c) && Keyword(c) in args
            && forall j :: 0 <= j < k ==> Priority[j] !in args))
  {
    var c := Dispatch(args);
    if c != Wrong {
      var k := if c == Build then 0 else if c.Install? || c == InstallFormat then 1 else if c == Watch then 2 else 3;
      assert Priority[k] == Keyword(c);
    }
  }

  /** An install takes the URL from the second argument and the version from the
      third, "*" when there is none. */
  lemma InstallArguments(args: seq<string>)
    requires |args| >= 2 && "install" in args && "build" !in args
    ensures Dispatch(args) == Install(args[1], if |args| >= 3 then args[2] else "*")
  {
  }

  /** The flags every attempt refreshes the packages with: reload for "update",
      never reload for "install". */
  function RefreshFlags(args: seq<string>): (bool, bool) {
    ("update" in args, "install" in args)
  }

  // ---------------------------------------------------------------------------
  // Change detection

  /** CheckIsFileReallyChanged's answer, given the cache and the time just read. */
  function ReallyChanged(cache: map<string, int>, path: string, changedAt: int): (r: bool)
    ensures path !in cache ==> !r
    ensures path in cache ==> (r <==> cache[path] < changedAt)
  {
    path in cache && cache[path] < changedAt
  }

  /** A second event for a file at the same time as the first is ignored. */
  lemma RepeatedEventIgnored(cache: map<string, int>, path: string, changedAt: int)
    ensures !ReallyChanged(cache[path := changedAt], path, changedAt)
  {
  }

  /** A file seen at some time counts as changed exactly at later times. */
  lemma LaterEventCounts(cache: map<string, int>, path: string, seen: int, changedAt: int)
    ensures ReallyChanged(cache[path := seen], path, changedAt) <==> seen < changedAt
  {
  }

  /** Line 190: a target event rebuilds only when the file really changed, was not
      last written by the bundler itself, and has the target's name. */
  predicate TargetEventTriggers(reallyChanged: bool, changedOutside: bool, name: string, target: string) {
    reallyChanged && changedOutside && EndsWith(name, target)
  }

  /** The last of the first `n` attempts that failed, if any. */
  function LastFailure(fails: nat -> bool, n: nat): (r: Option<nat>)
    ensures r.Some? ==> r.value < n && fails(r.value) && forall i :: r.value < i < n ==> !fails(i)
    ensures r.None? <==> forall i :: 0 <= i < n ==> !fails(i)
  {
    if n == 0 then None
    else if fails(n - 1) then Some(n - 1)
    else LastFailure(fails, n - 1)
  }

  // ---------------------------------------------------------------------------
  // The application object

  class Application {
    const pm: R.PackageManager
    const mm: Bundler.ModuleManager
    var retryAttempt: nat
    /** WatcherChangedFilesCache: the last time seen per path. */
    var cache: map<string, int>

    constructor (pm: R.PackageManager, mm: Bundler.ModuleManager)
      ensures this.pm == pm && this.mm == mm && retryAttempt == 0 && cache == map[]
    {
      this.pm := pm;
      this.mm := mm;
      retryAttempt := 0;
      cache := map[];
    }

    /** CheckIsFileReallyChanged, given the time File.GetLastAccessTimeUtc reads. */
    method CheckIsFileReallyChanged(path: string, changedAt: int) returns (changed: bool)
      modifies this`cache
      ensures changed == ReallyChanged(old(cache), path, changedAt)
      ensures cache == old(cache)[path := changedAt]
    {
      changed := false;
      if path in cache {
        changed := cache[path] < changedAt;
        cache := cache - {path};
      }
      cache := cache[path := changedAt];
    }

    /** OnTargetChanged and OnTargetRenamed, given the event's path and name, the
        time read for the cache and the target's write time. */
    method OnTargetChanged(path: string, name: string, changedAt: int, writeTime: int, callback: BusyState.Handler)
      returns (triggered: bool)
      requires pm.projectPackage.Some?
      modifies this`cache, mm.state
      ensures cache == old(cache)[path := changedAt]
      ensures triggered == TargetEventTriggers(ReallyChanged(old(cache), path, changedAt),
        mm.IsTargetChangedOutside(writeTime), name, pm.projectPackage.value.target)
      ensures triggered ==> writeTime != mm.targetLastChange
      ensures !triggered ==> mm.state.handlers == old(mm.state.handlers) && mm.state.log == old(mm.state.log)
      ensures mm.state.busy == old(mm.state.busy)
      ensures triggered && old(mm.state.busy) ==>
        mm.state.handlers == old(mm.state.handlers)[Bundler.RebuildKey := callback] && mm.state.log == old(mm.state.log)
      ensures triggered && !old(mm.state.busy) ==>
        && mm.state.handlers == map[]
        && |old(mm.state.log)| <= |mm.state.log|
        && mm.state.log[..|old(mm.state.log)|] == old(mm.state.log)
        && BusyState.IsDrainOf(old(mm.state.handlers)[Bundler.RebuildKey := callback], mm.state.log[|old(mm.state.log)|..])
    {
      var changed := CheckIsFileReallyChanged(path, changedAt);
      if !changed || !mm.IsTargetChangedOutside(writeTime) || !EndsWith(name, pm.projectPackage.value.target) {
        return false;
      }
      mm.state.InvokeASAP(Bundler.RebuildKey, callback);
      triggered := true;
    }

    /** OnSrcChanged and OnSrcRenamed: any real change of a source file schedules a rebuild. */
    method OnSrcChanged(path: string, changedAt: int, callback: BusyState.Handler) returns (triggered: bool)
      modifies this`cache, mm.state
      ensures cache == old(cache)[path := changedAt]
      ensures triggered == ReallyChanged(old(cache), path, changedAt)
      ensures !triggered ==> mm.state.handlers == old(mm.state.handlers) && mm.state.log == old(mm.state.log)
      ensures mm.state.busy == old(mm.state.busy)
      ensures triggered && old(mm.state.busy) ==>
        mm.state.handlers == old(mm.state.handlers)[Bundler.RebuildKey := callback] && mm.state.log == old(mm.state.log)
      ensures triggered && !old(mm.state.busy) ==>
        && mm.state.handlers == map[]
        && |old(mm.state.log)| <= |mm.state.log|
        && mm.state.log[..|old(mm.state.log)|] == old(mm.state.log)
        && BusyState.IsDrainOf(old(mm.state.handlers)[Bundler.RebuildKey := callback], mm.state.log[|old(mm.state.log)|..])
    {
      triggered := CheckIsFileReallyChanged(path, changedAt);
      if triggered {
        mm.state.InvokeASAP(Bundler.RebuildKey, callback);
      }
    }

    /** OnPackageChanged and OnPackageRenamed: only the project package file counts,
        and a real change of it schedules a refresh on the package manager. */
    method OnPackageChanged(path: string, name: string, changedAt: int, callback: BusyState.Handler)
      returns (triggered: bool)
      modifies this`cache, pm.coordinator
      ensures EndsWith(name, R.ProjectPackageName) ==> cache == old(cache)[path := changedAt]
      ensures !EndsWith(name, R.ProjectPackageName) ==> cache == old(cache)
      ensures triggered == (EndsWith(name, R.ProjectPackageName) && ReallyChanged(old(cache), path, changedAt))
      ensures !triggered ==> pm.coordinator.handlers == old(pm.coordinator.handlers) && pm.coordinator.log == old(pm.coordinator.log)
      ensures pm.coordinator.busy == old(pm.coordinator.busy)
      ensures triggered && old(pm.coordinator.busy) ==>
        pm.coordinator.handlers == old(pm.coordinator.handlers)[RefreshKey := callback] && pm.coordinator.log == old(pm.coordinator.log)
      ensures triggered && !old(pm.coordinator.busy) ==>
        && pm.coordinator.handlers == map[]
        && |old(pm.coordinator.log)| <= |pm.coordinator.log|
        && pm.coordinator.log[..|old(pm.coordinator.log)|] == old(pm.coordinator.log)
        && BusyState.IsDrainOf(old(pm.coordinator.handlers)[RefreshKey := callback], pm.coordinator.log[|old(pm.coordinator.log)|..])
    {
      triggered := false;
      if EndsWith(name, R.ProjectPackageName) {
        triggered := CheckIsFileReallyChanged(path, changedAt);
        if triggered {
          pm.coordinator.InvokeASAP(RefreshKey, callback);
        }
      }
    }

    /** The retry loop of the constructor (lines 54-88). Whether attempt i throws is
        the input `fails(i)`; a failed attempt clears the bundler at time `clock(i)`.
        A completed attempt ends the run: every command returns, and "watch" ends in
        WatchForChanges, which exits the process (line 128). Returns how many attempts
        ran and whether one of them completed. */
    method Run(args: seq<string>, fails: nat -> bool, clock: nat -> int) returns (tried: nat, done: bool)
      requires retryAttempt == 0
      modifies this`retryAttempt, mm`targetLastChange
      ensures |args| < 1 ==> tried == 0 && done
      ensures |args| >= 1 ==> 1 <= tried <= Attempts
      ensures |args| >= 1 ==> (done <==> exists i :: 0 <= i < Attempts && !fails(i))
      ensures |args| >= 1 && done ==> !fails(tried - 1) && forall i :: 0 <= i < tried - 1 ==> fails(i)
      ensures |args| >= 1 && !done ==> tried == Attempts
      ensures mm.targetLastChange == match LastFailure(fails, tried)
        case None => old(mm.targetLastChange)
        case Some(i) => clock(i)
    {
      if |args| < 1 {
        return 0, true;
      }
      while retryAttempt < Attempts
        invariant retryAttempt <= Attempts
        invariant forall i :: 0 <= i < retryAttempt ==> fails(i)
        invariant mm.targetLastChange == match LastFailure(fails, retryAttempt)
          case None => old(mm.targetLastChange)
          case Some(i) => clock(i)
        decreases Attempts - retryAttempt
      {
        if !fails(retryAttempt) {
          return retryAttempt + 1, true;
        }
        mm.Clear(clock(retryAttempt));
        retryAttempt := retryAttempt + 1;
      }
      return retryAttempt, false;
    }
  }
}
