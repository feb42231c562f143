/** The objects of ipi/pipelines.py as they run: `clonePackagesRepos`, a lane
    (`ResolutionSubRound`) whose dictionaries are updated in place, a round
    (`ResolutionRound`) of two lanes, and the `PackagesInstaller` driver. Each
    method is proved to compute what the value-level specification in `Lanes`
    and `Rounds` says. */
module Pipelines {
  import opened Common
  import opened Dicts
  import opened Lanes
  import opened Rounds
  import RoundFacts

  /** `clonePackagesRepos`: fetches every name that has an available source
      fetcher and collects the others, in order. */
  method ClonePackagesRepos(targetDir: Path, packagesToClone: seq<Name>, env: Env)
    returns (res: Dict<Name, Path>, ignored: seq<Pkg>, events: seq<Event>)
    ensures CloneResult(res, ignored, events) == CloneRepos(targetDir, packagesToClone, env)
  {
    res, ignored, events := Empty(), [], [];
    for i := 0 to |packagesToClone|
      invariant CloneResult(res, ignored, events) == CloneRepos(targetDir, packagesToClone[..i], env)
    {
      assert packagesToClone[..i + 1][..i] == packagesToClone[..i];
      var name := packagesToClone[i];
      var outDir := Join(targetDir, name);
      var lookupRes := env.lookup(name);
      var fetcherSpec := lookupRes.fetcher;
      if fetcherSpec.SourceFetcher? {
        if fetcherSpec.kind !in env.fetchers {
          ignored := ignored + [lookupRes];
          continue;
        }
      } else {
        ignored := ignored + [lookupRes];
        continue;
      }
      events := events + [Fetch(fetcherSpec.kind, fetcherSpec.repo, outDir, fetcherSpec.depth, fetcherSpec.refSpec)];
      if fetcherSpec.subDir != "" {
        outDir := Join(outDir, fetcherSpec.subDir);
      }
      res := res.Put(name, outDir);
    }
    assert packagesToClone[..|packagesToClone|] == packagesToClone;
  }

  /** `ResolutionSubRound`. Which lane it is (`kind`) fixes its configuration:
      `packageTypeName`, `depsGetter`, `moveToThis` and `prefsPatch`. The
      `idx` it is given is kept but never read. */
  class SubRound {
    const idx: LaneId
    const kind: LaneId
    var toFetch: Dict<Name, int>
    var fetched: Dict<Name, Path>
    var resolved: Dict<Name, Path>
    var ignored: Dict<Name, Pkg>

    /** The lane's four dictionaries as a value. */
    function State(): LaneState
      reads this
    {
      LaneState(toFetch, fetched, resolved, ignored)
    }

    constructor (idx: LaneId, kind: LaneId)
      ensures this.idx == idx && this.kind == kind && State() == EmptyLane()
    {
      this.idx := idx;
      this.kind := kind;
      toFetch, fetched, resolved, ignored := Empty(), Empty(), Empty(), Empty();
    }

    /** `fetch`. `ok` is false where the source raises `NotImplementedError`. */
    method Fetch(sourcesDir: Path, env: Env) returns (ok: bool, events: seq<Event>)
      modifies this
      ensures FetchResult(State(), ok, events) == FetchLane(old(State()), sourcesDir, env)
    {
      var buildDepsInstallDirs, ignoredPkgs;
      buildDepsInstallDirs, ignoredPkgs, events := ClonePackagesRepos(sourcesDir, toFetch.keys, env);
      ghost var c := CloneRepos(sourcesDir, toFetch.keys, env);
      assert buildDepsInstallDirs == c.res && ignoredPkgs == c.ignored && events == c.events;
      for i := 0 to |ignoredPkgs|
        invariant AllSystem(ignoredPkgs[..i])
      {
        if ignoredPkgs[i].fetcher.kind != SYSTEM {
          assert !AllSystem(c.ignored);
          return false, events;
        }
      }
      assert ignoredPkgs[..|ignoredPkgs|] == ignoredPkgs;
      ghost var l := State();
      var ignoredNames := IgnoredByName(ignoredPkgs);
      fetched := fetched.Update(buildDepsInstallDirs);
      toFetch := Empty();
      ignored := ignored.Update(ignoredNames);
      ok := true;
      assert FetchLane(l, sourcesDir, env) == FetchResult(State(), true, events);
    }

    /** `buildAndInstallWheel`: one build per resolved name, in order, or a
        notice that there is nothing to install. */
    method BuildAndInstallWheel(installDirs: Dict<Name, Path>) returns (events: seq<Event>, err: Option<Error>)
      ensures InstallResult(events, err) == LaneInstall(State(), PackageTypeName(kind), installDirs)
    {
      err := None;
      if |resolved.keys| > 0 {
        events := [];
        for i := 0 to |resolved.keys|
          invariant InstallResult(events, None) == InstallEach(resolved.keys[..i], installDirs)
        {
          var t := resolved.keys[i];
          assert resolved.keys[..i + 1][..i] == resolved.keys[..i];
          if t !in installDirs.vals {
            err := Some(MissingInstallDir(t));
            RoundFacts.InstallEachStops(resolved.keys, installDirs, i + 1);
            return;
          }
          events := events + [BuildAndInstall(installDirs.vals[t], [])];
        }
        assert resolved.keys[..|resolved.keys|] == resolved.keys;
      } else {
        events := [NothingToInstall(PackageTypeName(kind))];
      }
    }

    /** `appendNewDeps` with its one other lane `other` and the successor lane
        `successor`: promotion deletes from `other`'s collections, scheduling
        writes `successor.toFetch`. */
    method AppendNewDeps(env: Env, prefs: Prefs, srcList: seq<Requirement>, other: SubRound, successor: SubRound)
      requires other != this && successor != this && successor != other
      modifies other`fetched, other`resolved, successor`toFetch
      ensures Targets(other.State(), successor.toFetch)
        == Lanes.AppendNewDeps(env, prefs, MoveToThis(kind), State(), Targets(old(other.State()), old(successor.toFetch)), srcList)
    {
      for i := 0 to |srcList|
        invariant Targets(other.State(), successor.toFetch)
          == Lanes.AppendNewDeps(env, prefs, MoveToThis(kind), State(), Targets(old(other.State()), old(successor.toFetch)), srcList[..i])
      {
        assert srcList[..i + 1][..i] == srcList[..i];
        var el := srcList[i];
        if el.name in ignored.vals {
          continue;
        }
        if !IsReInstallationNeeded(env, el, prefs) {
          continue;
        }
        var n := el.name;
        var otherRoundStage := other.State().IsAlreadyBeingProcessed(n);
        if otherRoundStage != NotResolved {
          if MoveToThis(kind) {
            // lines 217-220: both names denote the other lane's collection,
            // so writing `1` and deleting leaves the deletion alone (`RemoveAfterPut`)
            match otherRoundStage
            case Fetched => other.fetched := other.fetched.Remove(n);
            case DepsResolved => other.resolved := other.resolved.Remove(n);
          }
        }
        var currentRoundStage := State().IsAlreadyBeingProcessed(n);
        if currentRoundStage != NotResolved {
          continue;
        }
        successor.toFetch := successor.toFetch.Put(n, 1);
      }
      assert srcList[..|srcList|] == srcList;
    }
  }

  /** `ResolutionRound`: its two lanes. */
  class Round {
    const build: SubRound
    const pkgs: SubRound

    ghost predicate Valid()
      reads this
    {
      build != pkgs && build.kind == BuildLane && pkgs.kind == PkgsLane
    }

    function State(): RoundState
      reads this, build, pkgs
    {
      RoundState(build.State(), pkgs.State())
    }

    /** `ResolutionRound()`; line 239 gives the package lane the index of the build lane. */
    constructor ()
      ensures Valid() && fresh(build) && fresh(pkgs) && State() == NewRound()
      ensures build.idx == BuildLane && pkgs.idx == BuildLane
    {
      build := new SubRound(BuildLane, BuildLane);
      pkgs := new SubRound(BuildLane, PkgsLane);
    }

    /** One iteration of the outer loop of `_resolveDeps`: the loop over the
        entries `l` fetched, with `o` as its only other lane. `bound` says
        whether `successorSubRound` has been assigned. */
    method VisitLane(env: Env, prefs: Prefs, lid: LaneId, l: SubRound, o: SubRound, successor: Round, bound: bool, events0: seq<Event>)
      returns (bound': bool, err: Option<Error>, events: seq<Event>)
      requires successor.Valid() && l != o && l.kind == lid
      requires l != successor.build && l != successor.pkgs && o != successor.build && o != successor.pkgs
      modifies l, o, successor.build, successor.pkgs
      ensures ResState(l.State(), o.State(), successor.build.State(), successor.pkgs.State(), bound', err, events)
        == ResolveLane(env, prefs, lid, ResState(old(l.State()), old(o.State()), old(successor.build.State()), old(successor.pkgs.State()), bound, None, events0),
                       ItemsOf(old(l.fetched.keys), old(l.fetched.vals)))
    {
      var items := ItemsOf(l.fetched.keys, l.fetched.vals);
      ghost var s0 := ResState(l.State(), o.State(), successor.build.State(), successor.pkgs.State(), bound, None, events0);
      bound', err, events := bound, None, events0;
      for i := 0 to |items|
        invariant err.None?
        invariant ResState(l.State(), o.State(), successor.build.State(), successor.pkgs.State(), bound', None, events)
          == ResolveLane(env, prefs, lid, s0, items[..i])
      {
        assert items[..i + 1][..i] == items[..i];
        assert ResolveLane(env, prefs, lid, s0, items[..i + 1]) == ResolveOne(env, prefs, lid, ResolveLane(env, prefs, lid, s0, items[..i]), items[i]);
        bound', err, events := VisitEntry(env, prefs, lid, l, o, successor, items[i], bound', events);
        if err.Some? {
          RoundFacts.ResolveLaneStops(env, prefs, lid, s0, items, i + 1);
          return;
        }
      }
      assert items[..|items|] == items;
    }

    /** The body of the loop over `l`'s fetched entries for one entry. */
    method VisitEntry(env: Env, prefs: Prefs, lid: LaneId, l: SubRound, o: SubRound, successor: Round,
                      item: (Name, Path), bound: bool, events0: seq<Event>)
      returns (bound': bool, err: Option<Error>, events: seq<Event>)
      requires successor.Valid() && l != o && l.kind == lid
      requires l != successor.build && l != successor.pkgs && o != successor.build && o != successor.pkgs
      modifies l, o, successor.build, successor.pkgs
      ensures ResState(l.State(), o.State(), successor.build.State(), successor.pkgs.State(), bound', err, events)
        == ResolveOne(env, prefs, lid, ResState(old(l.State()), old(o.State()), old(successor.build.State()), old(successor.pkgs.State()), bound, None, events0), item)
    {
      var (name, installDir) := item;
      bound', err, events := bound, None, events0;
      if name !in l.ignored.vals {
        events := ProcessEntry(env, prefs, lid, l, o, successor, name, installDir, bound, events0);
        bound' := true;
      } else if !bound {
        err := Some(UnboundSuccessor);
      } else {
        // line 290: `successorSubRound` is the one the inner loop left behind
        successor.pkgs.resolved := successor.pkgs.resolved.Update(l.resolved);
      }
    }

    /** The body of the loop over `l`'s fetched entries for an entry `name`,
        fetched into `installDir`, that `l` does not ignore. */
    method ProcessEntry(env: Env, prefs: Prefs, lid: LaneId, l: SubRound, o: SubRound, successor: Round,
                        name: Name, installDir: Path, bound: bool, events0: seq<Event>)
      returns (events: seq<Event>)
      requires successor.Valid() && l != o && l.kind == lid
      requires l != successor.build && l != successor.pkgs && o != successor.build && o != successor.pkgs
      modifies l, o, successor.build, successor.pkgs
      ensures ResState(l.State(), o.State(), successor.build.State(), successor.pkgs.State(), true, None, events)
        == Process(env, prefs, lid, ResState(old(l.State()), old(o.State()), old(successor.build.State()), old(successor.pkgs.State()), bound, None, events0),
                   name, installDir)
    {
      var md := env.extractMetadata(installDir);
      events := events0 + [ExtractMetadata(installDir)];
      // the loop over `subroundSuccessorPrefs`: the build lane, then the package lane
      var deps := DepsFor(env, prefs, BuildLane, md);
      l.AppendNewDeps(env, Patched(prefs, PrefsPatch(BuildLane)), deps, o, successor.build);
      l.resolved := l.resolved.Put(name, installDir);
      deps := DepsFor(env, prefs, PkgsLane, md);
      l.AppendNewDeps(env, Patched(prefs, PrefsPatch(PkgsLane)), deps, o, successor.pkgs);
      l.resolved := l.resolved.Put(name, installDir);
      // line 290: `successorSubRound` is the one the inner loop left behind
      successor.pkgs.resolved := successor.pkgs.resolved.Update(l.resolved);
    }

    /** `_resolveDeps`: the build lane's entries, then the package lane's. */
    method ResolveDeps(env: Env, prefs: Prefs, successor: Round) returns (err: Option<Error>, events: seq<Event>)
      requires Valid() && successor.Valid()
      requires build != successor.build && build != successor.pkgs && pkgs != successor.build && pkgs != successor.pkgs
      modifies build, pkgs, successor.build, successor.pkgs
      ensures ResolveResult(State(), successor.State(), err, events) == Rounds.ResolveDeps(env, prefs, old(State()), old(successor.State()))
    {
      var bound;
      bound, err, events := VisitLane(env, prefs, BuildLane, build, pkgs, successor, false, []);
      ghost var s1 := ResState(build.State(), pkgs.State(), successor.build.State(), successor.pkgs.State(), bound, err, events);
      if err.Some? {
        RoundFacts.ResolveLaneErrSticky(env, prefs, PkgsLane, RoundFacts.Swapped(s1), ItemsOf(pkgs.fetched.keys, pkgs.fetched.vals));
        return;
      }
      bound, err, events := VisitLane(env, prefs, PkgsLane, pkgs, build, successor, bound, events);
    }

    /** `__call__`: fetch both lanes, resolve their dependencies into a new
        round, then merge both lanes' `fetched` into `installDirs`. */
    method Call(env: Env, prefs: Prefs, installDirs: Dict<Name, Path>, sourcesDir: Path)
      returns (nextRound: Round, installDirs': Dict<Name, Path>, events: seq<Event>, err: Option<Error>)
      requires Valid()
      modifies build, pkgs
      ensures nextRound.Valid() && fresh(nextRound) && fresh(nextRound.build) && fresh(nextRound.pkgs)
      ensures RoundResult(State(), nextRound.State(), installDirs', events, err) == RoundCall(env, prefs, old(State()), installDirs, sourcesDir)
    {
      nextRound := new Round();
      installDirs' := installDirs;
      var ok, evs := build.Fetch(sourcesDir, env);
      events := evs;
      if !ok {
        return nextRound, installDirs', events, Some(FetcherNotImplemented);
      }
      ok, evs := pkgs.Fetch(sourcesDir, env);
      events := events + evs;
      if !ok {
        return nextRound, installDirs', events, Some(FetcherNotImplemented);
      }
      err, evs := ResolveDeps(env, prefs, nextRound);
      events := events + evs;
      if err.Some? {
        return;
      }
      installDirs' := installDirs'.Update(build.fetched);
      installDirs' := installDirs'.Update(pkgs.fetched);
    }

    /** `buildAndInstallWheel`: the build lane, then the package lane. */
    method BuildAndInstallWheel(installDirs: Dict<Name, Path>) returns (events: seq<Event>, err: Option<Error>)
      requires Valid()
      ensures InstallResult(events, err) == RoundInstall(State(), installDirs)
    {
      events, err := build.BuildAndInstallWheel(installDirs);
      if err.Some? {
        return;
      }
      var evs;
      evs, err := pkgs.BuildAndInstallWheel(installDirs);
      events := events + evs;
    }
  }

  /** `PackagesInstaller`: the collaborators (`registry` and the rest) and the
      `installDirs` dictionary that the rounds fill. `ignored` is reset and
      never read again. */
  class PackagesInstaller {
    const env: Env
    var installDirs: Dict<Name, Path>
    var ignored: set<Name>

    /** `__init__`, which calls `_reset`. */
    constructor (env: Env)
      ensures this.env == env && installDirs == Empty() && ignored == {}
    {
      this.env := env;
      installDirs := Empty();
      ignored := {};
    }

    /** `downloadPackagesAndTheirDependencies`, running at most `fuel` rounds, in
        the temporary sources directory `sourcesDir`. */
    method DownloadPackagesAndTheirDependencies(prefs: Prefs, names: seq<string>, sourcesDir: Path, fuel: nat)
      returns (events: seq<Event>, outcome: Outcome)
      modifies this
      ensures ignored == old(ignored)
      ensures DownloadResult(installDirs, events, outcome) == Download(env, prefs, names, old(installDirs), sourcesDir, fuel)
    {
      var rr := SeedRound(names);
      ghost var call := RoundCaller(env, prefs.Clone(Some(false), None, None), sourcesDir);
      RoundFacts.CallerCalls(env, prefs.Clone(Some(false), None, None), sourcesDir);
      var last, dirs;
      last, dirs, events, outcome := DriveRounds(rr, prefs.Clone(Some(false), None, None), installDirs, sourcesDir, fuel, call);
      installDirs := dirs;
      if outcome != Completed {
        return;
      }
      var evs, err := last.BuildAndInstallWheel(dirs);
      events := events + evs;
      outcome := if err.Some? then Failed(err.value) else Completed;
    }

    /** `rr = ResolutionRound()` and `rr.pkgs.toFetch.update({…: 1 for el in names})`. */
    method SeedRound(names: seq<string>) returns (rr: Round)
      ensures fresh(rr) && fresh(rr.build) && fresh(rr.pkgs) && rr.Valid()
      ensures rr.State() == Seed(env, names)
    {
      rr := new Round();
      rr.pkgs.toFetch := rr.pkgs.toFetch.Update(SeedNames(env, names));
    }

    /** The loop `while rr: rr = rr(prefs, installDirs=…, sourcesDir=…)` of
        `downloadPackagesAndTheirDependencies`, for at most `fuel` rounds; `last`
        is the round the loop stopped at (the one that raised, when one did). */
    method DriveRounds(rr: Round, prefs: Prefs, installDirs: Dict<Name, Path>, sourcesDir: Path, fuel: nat,
                       ghost call: (RoundState, Dict<Name, Path>) -> RoundResult)
      returns (last: Round, installDirs': Dict<Name, Path>, events: seq<Event>, outcome: Outcome)
      requires rr.Valid() && Calls(call, env, prefs, sourcesDir)
      modifies rr.build, rr.pkgs
      ensures last.Valid()
      ensures RunResult(last.State(), installDirs', events, outcome) == Drive(call, old(rr.State()), installDirs, fuel)
    {
      ghost var run := Drive(call, rr.State(), installDirs, fuel);
      last, installDirs' := rr, installDirs;
      var f := fuel;
      events := [];
      var err: Option<Error> := None;
      while last.State().HasWork() && f > 0
        invariant last.Valid()
        invariant last == rr || (fresh(last.build) && fresh(last.pkgs))
        invariant run == After(events, Drive(call, last.State(), installDirs', f))
        decreases f
      {
        var next;
        next, installDirs', events, err := Advance(last, prefs, installDirs', sourcesDir, f, events, call, run);
        if err.Some? {
          return last, installDirs', events, Failed(err.value);
        }
        last, f := next, f - 1;
      }
      outcome := if last.State().HasWork() then OutOfFuel else Completed;
      RoundFacts.DriveStops(call, last.State(), installDirs', f);
    }

    /** One iteration of the loop of `downloadPackagesAndTheirDependencies`: the
        round is called, and what remains of the run `run` is either what the
        loop does from the new round `next` or, when the round raised, nothing. */
    method Advance(rr: Round, prefs: Prefs, installDirs: Dict<Name, Path>, sourcesDir: Path, fuel: nat,
                   events: seq<Event>, ghost call: (RoundState, Dict<Name, Path>) -> RoundResult, ghost run: RunResult)
      returns (next: Round, installDirs': Dict<Name, Path>, events': seq<Event>, err: Option<Error>)
      requires rr.Valid() && rr.State().HasWork() && fuel > 0 && Calls(call, env, prefs, sourcesDir)
      requires run == After(events, Drive(call, rr.State(), installDirs, fuel))
      modifies rr.build, rr.pkgs
      ensures next.Valid() && fresh(next.build) && fresh(next.pkgs)
      ensures err.Some? ==> run == RunResult(rr.State(), installDirs', events', Failed(err.value))
      ensures err.None? ==> run == After(events', Drive(call, next.State(), installDirs', fuel - 1))
    {
      ghost var cur := rr.State();
      var evs;
      next, installDirs', evs, err := CallRound(rr, prefs, installDirs, sourcesDir, call);
      events' := events + evs;
      if err.Some? {
        RoundFacts.DriveStepFails(call, cur, installDirs, fuel, events, run, rr.State(), next.State(), installDirs', evs, err.value);
      } else {
        RoundFacts.DriveStep(call, cur, installDirs, fuel, events, run, rr.State(), next.State(), installDirs', evs, fuel - 1, events');
      }
    }

    /** `rr(prefs, installDirs=…, sourcesDir=…)`, seen through the round caller `call`. */
    method CallRound(rr: Round, prefs: Prefs, installDirs: Dict<Name, Path>, sourcesDir: Path,
                     ghost call: (RoundState, Dict<Name, Path>) -> RoundResult)
      returns (next: Round, installDirs': Dict<Name, Path>, events: seq<Event>, err: Option<Error>)
      requires rr.Valid() && Calls(call, env, prefs, sourcesDir)
      modifies rr.build, rr.pkgs
      ensures next.Valid() && fresh(next.build) && fresh(next.pkgs)
      ensures RoundResult(rr.State(), next.State(), installDirs', events, err) == call(old(rr.State()), installDirs)
    {
      next, installDirs', events, err := rr.Call(env, prefs, installDirs, sourcesDir);
    }
  }
}
