/** The value-level specification of a resolution round (`ResolutionRound` in
    ipi/pipelines.py), of the driver loop of
    `PackagesInstaller.downloadPackagesAndTheirDependencies`, and of the install
    phase that follows it. */
module Rounds {
  import opened Common
  import opened Dicts
  import opened Lanes

  /** The ways a run aborts:
      - `FetcherNotImplemented`: the `NotImplementedError` raised by `fetch`;
      - `UnboundSuccessor`: line 290 reads `successorSubRound` before any
        assignment to it (Python's `UnboundLocalError`);
      - `MissingInstallDir`: `installDirs[t]` fails while installing (`KeyError`). */
  datatype Error = FetcherNotImplemented | UnboundSuccessor | MissingInstallDir(name: Name)

  /** `unpinRequirement` applied to every requirement. */
  function Unpinned(env: Env, reqs: seq<Requirement>): seq<Requirement> {
    seq(|reqs|, i requires 0 <= i < |reqs| => reqs[i].(specifier := env.unpin(reqs[i].specifier)))
  }

  /** The requirements the `target` lane's `depsGetter` takes from `md`, unpinned. */
  function DepsFor(env: Env, prefs: Prefs, target: LaneId, md: Metadata): seq<Requirement> {
    Unpinned(env, DepsGetter(target, prefs, md))
  }

  /** The state `_resolveDeps` works on while it visits one lane `l`: that lane,
      the other lane `o` of the same round, the successor round's build lane
      `sb` and package lane `sp`, whether `successorSubRound` has been bound, an
      error, and the metadata extractions made. */
  datatype ResState = ResState(
    l: LaneState, o: LaneState, sb: LaneState, sp: LaneState,
    bound: bool, err: Option<Error>, events: seq<Event>)

  /** The body of the loop over `thisSubRound.fetched.items()` for one entry. */
  function ResolveOne(env: Env, prefs: Prefs, lid: LaneId, s: ResState, item: (Name, Path)): ResState {
    if s.err.Some? then s
    else if item.0 !in s.l.ignored.vals then Process(env, prefs, lid, s, item.0, item.1)
    else if !s.bound then s.(err := Some(UnboundSuccessor))
    else s.(sp := s.sp.(resolved := s.sp.resolved.Update(s.l.resolved)))
  }

  /** An entry `n` fetched into directory `d` and not ignored: its dependencies
      are scheduled into both lanes of the successor round and it is recorded as
      resolved. */
  function Process(env: Env, prefs: Prefs, lid: LaneId, s: ResState, n: Name, d: Path): ResState {
    var md := env.extractMetadata(d);
    // target lane `build`
    var t1 := AppendNewDeps(env, Patched(prefs, PrefsPatch(BuildLane)), MoveToThis(lid), s.l,
                            Targets(s.o, s.sb.toFetch), DepsFor(env, prefs, BuildLane, md));
    var l1 := s.l.(resolved := s.l.resolved.Put(n, d));
    // target lane `pkgs`
    var t2 := AppendNewDeps(env, Patched(prefs, PrefsPatch(PkgsLane)), MoveToThis(lid), l1,
                            Targets(t1.other, s.sp.toFetch), DepsFor(env, prefs, PkgsLane, md));
    var l2 := l1.(resolved := l1.resolved.Put(n, d));
    // line 290: the leftover `successorSubRound` is the successor's `pkgs` lane
    var sp := s.sp.(toFetch := t2.succToFetch);
    ResState(l2, t2.other, s.sb.(toFetch := t1.succToFetch), sp.(resolved := sp.resolved.Update(l2.resolved)),
             true, None, s.events + [ExtractMetadata(d)])
  }

  /** The loop over one lane's fetched entries. */
  function ResolveLane(env: Env, prefs: Prefs, lid: LaneId, s: ResState, items: seq<(Name, Path)>): ResState
    decreases |items|
  {
    if items == [] then s
    else ResolveOne(env, prefs, lid, ResolveLane(env, prefs, lid, s, items[..|items| - 1]), items[|items| - 1])
  }

  /** A round's two lanes. */
  datatype RoundState = RoundState(build: LaneState, pkgs: LaneState) {
    ghost predicate Valid() {
      build.Valid() && pkgs.Valid()
    }

    /** `ResolutionRound.__bool__`. */
    predicate HasWork() {
      build.HasWork() || pkgs.HasWork()
    }
  }

  /** `ResolutionRound()`: two fresh lanes. */
  function NewRound(): (r: RoundState)
    ensures r.Valid() && !r.HasWork()
  {
    RoundState(EmptyLane(), EmptyLane())
  }

  datatype ResolveResult = ResolveResult(cur: RoundState, next: RoundState, err: Option<Error>, events: seq<Event>)

  /** `_resolveDeps`: the build lane's entries, then the package lane's, each
      lane seeing the other one as its only other lane. */
  function ResolveDeps(env: Env, prefs: Prefs, cur: RoundState, next: RoundState): ResolveResult {
    var s1 := ResolveLane(env, prefs, BuildLane, ResState(cur.build, cur.pkgs, next.build, next.pkgs, false, None, []),
                          ItemsOf(cur.build.fetched.keys, cur.build.fetched.vals));
    var s2' := ResState(s1.o, s1.l, s1.sb, s1.sp, s1.bound, s1.err, s1.events);
    var s2 := ResolveLane(env, prefs, PkgsLane, s2', ItemsOf(s2'.l.fetched.keys, s2'.l.fetched.vals));
    ResolveResult(RoundState(s2.o, s2.l), RoundState(s2.sb, s2.sp), s2.err, s2.events)
  }

  /** What a round call leaves behind: the called round's lanes, the new round,
      `installDirs`, the calls made and an error. */
  datatype RoundResult = RoundResult(cur: RoundState, next: RoundState, installDirs: Dict<Name, Path>, events: seq<Event>, err: Option<Error>)

  /** `ResolutionRound.__call__`. */
  function RoundCall(env: Env, prefs: Prefs, cur: RoundState, installDirs: Dict<Name, Path>, sourcesDir: Path): RoundResult {
    var next := NewRound();
    var fb := FetchLane(cur.build, sourcesDir, env);
    if !fb.ok then RoundResult(cur, next, installDirs, fb.events, Some(FetcherNotImplemented))
    else
      var fp := FetchLane(cur.pkgs, sourcesDir, env);
      if !fp.ok then RoundResult(RoundState(fb.lane, cur.pkgs), next, installDirs, fb.events + fp.events, Some(FetcherNotImplemented))
      else
        var r := ResolveDeps(env, prefs, RoundState(fb.lane, fp.lane), next);
        var events := fb.events + fp.events + r.events;
        if r.err.Some? then RoundResult(r.cur, r.next, installDirs, events, r.err)
        else RoundResult(r.cur, r.next, installDirs.Update(r.cur.build.fetched).Update(r.cur.pkgs.fetched), events, None)
  }

  /** How the driver loop ends: the final round is empty, a round raised, or the
      fuel bound on the number of rounds was reached. */
  datatype Outcome = Completed | Failed(error: Error) | OutOfFuel

  datatype RunResult = RunResult(final: RoundState, installDirs: Dict<Name, Path>, events: seq<Event>, outcome: Outcome)

  /** One call of a round, `rr(prefs, installDirs=…, sourcesDir=…)`, with
      the preferences and the sources directory fixed. */
  function RoundCaller(env: Env, prefs: Prefs, sourcesDir: Path): (RoundState, Dict<Name, Path>) -> RoundResult {
    (c, d) => RoundCall(env, prefs, c, d, sourcesDir)
  }

  /** `call` calls the round with these preferences and this sources directory. */
  ghost predicate Calls(call: (RoundState, Dict<Name, Path>) -> RoundResult, env: Env, prefs: Prefs, sourcesDir: Path) {
    forall c: RoundState, d: Dict<Name, Path> {:trigger RoundCall(env, prefs, c, d, sourcesDir)} :: call(c, d) == RoundCall(env, prefs, c, d, sourcesDir)
  }

  /** `while rr: rr = call(rr, installDirs)`, for at most `fuel` rounds. */
  function Drive(call: (RoundState, Dict<Name, Path>) -> RoundResult, cur: RoundState, installDirs: Dict<Name, Path>, fuel: nat): RunResult
    decreases fuel, 0
  {
    if !cur.HasWork() then RunResult(cur, installDirs, [], Completed)
    else if fuel == 0 then RunResult(cur, installDirs, [], OutOfFuel)
    else DriveRound(call, cur, installDirs, fuel - 1)
  }

  /** One iteration of the driver loop with work left. */
  function DriveRound(call: (RoundState, Dict<Name, Path>) -> RoundResult, cur: RoundState, installDirs: Dict<Name, Path>, fuel: nat): RunResult
    decreases fuel, 2
  {
    DriveOn(call, cur, installDirs, fuel)
  }

  /** The round is called; unless it raised, the loop goes on with the new round. */
  function DriveOn(call: (RoundState, Dict<Name, Path>) -> RoundResult, cur: RoundState, installDirs: Dict<Name, Path>, fuel: nat): RunResult
    decreases fuel, 1
  {
    var r := call(cur, installDirs);
    if r.err.Some? then RunResult(r.cur, r.installDirs, r.events, Failed(r.err.value))
    else
      var rest := Drive(call, r.next, r.installDirs, fuel);
      RunResult(rest.final, rest.installDirs, r.events + rest.events, rest.outcome)
  }

  /** A run whose events are preceded by `events`. */
  function After(events: seq<Event>, r: RunResult): RunResult {
    r.(events := events + r.events)
  }

  /** The driver loop of `downloadPackagesAndTheirDependencies`: every round is
      called with `prefs.clone(upgrade=False)`. */
  function Run(env: Env, prefs: Prefs, cur: RoundState, installDirs: Dict<Name, Path>, sourcesDir: Path, fuel: nat): RunResult {
    Drive(RoundCaller(env, prefs.Clone(Some(false), None, None), sourcesDir), cur, installDirs, fuel)
  }

  datatype InstallResult = InstallResult(events: seq<Event>, err: Option<Error>)

  /** `for t in self.resolved: buildAndInstallWheel(installDirs[t])`. */
  function InstallEach(ks: seq<Name>, installDirs: Dict<Name, Path>): InstallResult
    decreases |ks|
  {
    if ks == [] then InstallResult([], None)
    else
      var r := InstallEach(ks[..|ks| - 1], installDirs);
      var t := ks[|ks| - 1];
      if r.err.Some? then r
      else if t in installDirs.vals then InstallResult(r.events + [BuildAndInstall(installDirs.vals[t], [])], None)
      else InstallResult(r.events, Some(MissingInstallDir(t)))
  }

  /** `ResolutionSubRound.buildAndInstallWheel`. */
  function LaneInstall(l: LaneState, packageTypeName: string, installDirs: Dict<Name, Path>): InstallResult {
    if |l.resolved.keys| > 0 then InstallEach(l.resolved.keys, installDirs)
    else InstallResult([NothingToInstall(packageTypeName)], None)
  }

  /** `ResolutionRound.buildAndInstallWheel`: the build lane, then the package lane. */
  function RoundInstall(r: RoundState, installDirs: Dict<Name, Path>): InstallResult {
    var b := LaneInstall(r.build, PackageTypeName(BuildLane), installDirs);
    if b.err.Some? then b
    else
      var p := LaneInstall(r.pkgs, PackageTypeName(PkgsLane), installDirs);
      InstallResult(b.events + p.events, p.err)
  }

  /** `{canonicalizedRequirement(el).name: 1 for el in names}`. */
  function SeedNames(env: Env, names: seq<string>): (d: Dict<Name, int>)
    ensures d.Valid()
    ensures forall n :: n in d.vals <==> exists i | 0 <= i < |names| :: env.canonicalName(names[i]) == n
    ensures forall n | n in d.vals :: d.vals[n] == 1
    decreases |names|
  {
    if names == [] then Empty()
    else
      var d := SeedNames(env, names[..|names| - 1]);
      assert forall i | 0 <= i < |names| - 1 :: names[..|names| - 1][i] == names[i];
      d.Put(env.canonicalName(names[|names| - 1]), 1)
  }

  /** The first round of the driver: only the package lane's `toFetch` is filled. */
  function Seed(env: Env, names: seq<string>): RoundState {
    var r := NewRound();
    r.(pkgs := r.pkgs.(toFetch := r.pkgs.toFetch.Update(SeedNames(env, names))))
  }

  datatype DownloadResult = DownloadResult(installDirs: Dict<Name, Path>, events: seq<Event>, outcome: Outcome)

  /** `downloadPackagesAndTheirDependencies`: seed, run the rounds, then install
      from the final round. */
  function Download(env: Env, prefs: Prefs, names: seq<string>, installDirs: Dict<Name, Path>, sourcesDir: Path, fuel: nat): DownloadResult {
    Finish(Run(env, prefs, Seed(env, names), installDirs, sourcesDir, fuel))
  }

  /** After the driver loop: `rr.buildAndInstallWheel(installDirs)` on the final round, unless the loop raised. */
  function Finish(run: RunResult): DownloadResult {
    if run.outcome != Completed then DownloadResult(run.installDirs, run.events, run.outcome)
    else
      var ins := RoundInstall(run.final, run.installDirs);
      DownloadResult(run.installDirs, run.events + ins.events, if ins.err.Some? then Failed(ins.err.value) else Completed)
  }
}
