/** The value-level specification of one lane of a resolution round
    (`ResolutionSubRound` in ipi/pipelines.py) and of the values it is made of:
    resolution preferences, pipeline stages, the reinstall decision, the fetch
    step and the scheduling of newly discovered dependencies. */
module Lanes {
  import opened Common
  import opened Dicts

  /** `ResolutionPrefs`. */
  datatype Prefs = Prefs(upgrade: bool, resolveDeps: bool, forceReinstall: bool) {

    /** `clone`: a new value whose fields are the given overrides, or the receiver's fields where none is given. */
    function Clone(upgrade': Option<bool>, resolveDeps': Option<bool>, forceReinstall': Option<bool>): (r: Prefs)
      ensures upgrade'.Some? ==> r.upgrade == upgrade'.value
      ensures upgrade'.None? ==> r.upgrade == upgrade
      ensures resolveDeps'.Some? ==> r.resolveDeps == resolveDeps'.value
      ensures resolveDeps'.None? ==> r.resolveDeps == resolveDeps
      ensures forceReinstall'.Some? ==> r.forceReinstall == forceReinstall'.value
      ensures forceReinstall'.None? ==> r.forceReinstall == forceReinstall
    {
      Prefs(
        if upgrade'.None? then upgrade else upgrade'.value,
        if resolveDeps'.None? then resolveDeps else resolveDeps'.value,
        if forceReinstall'.None? then forceReinstall else forceReinstall'.value)
    }
  }

  /** A lane's `prefsPatch`: the keyword arguments it passes to `clone`. */
  datatype Patch = Patch(upgrade: Option<bool>, resolveDeps: Option<bool>, forceReinstall: Option<bool>)

  function Patched(prefs: Prefs, patch: Patch): Prefs {
    prefs.Clone(patch.upgrade, patch.resolveDeps, patch.forceReinstall)
  }

  /** `ResolutionSubRoundPipelineStage`; only the first three are ever produced. */
  datatype Stage = NotResolved | Fetched | DepsResolved | Built | Installed

  /** `ResolutionRoundSubRound`: the keys of a round's two lanes. */
  datatype LaneId = BuildLane | PkgsLane

  // The configuration each lane receives in `ResolutionRound.__init__`.

  function PackageTypeName(id: LaneId): string {
    match id
    case BuildLane => "build tool"
    case PkgsLane => "package"
  }

  function MoveToThis(id: LaneId): bool {
    id == BuildLane
  }

  function PrefsPatch(id: LaneId): Patch {
    match id
    case BuildLane => Patch(None, None, Some(false))
    case PkgsLane => Patch(None, None, None)
  }

  /** The lane's `depsGetter` lambda. */
  function DepsGetter(id: LaneId, prefs: Prefs, md: Metadata): seq<Requirement> {
    match id
    case BuildLane => md.buildDeps
    case PkgsLane => if prefs.resolveDeps && |md.deps| > 0 then md.deps else []
  }

  /** The four dictionaries of a lane. */
  datatype LaneState = LaneState(
    toFetch: Dict<Name, int>,
    fetched: Dict<Name, Path>,
    resolved: Dict<Name, Path>,
    ignored: Dict<Name, Pkg>)
  {
    ghost predicate Valid() {
      toFetch.Valid() && fetched.Valid() && resolved.Valid() && ignored.Valid()
    }

    /** `__bool__`: a dictionary is truthy when it is not empty. */
    predicate HasWork() {
      |toFetch.keys| > 0
    }

    /** `isAlreadyBeingProcessed`: the first stage of the table (fetched, then
        resolved) whose collection holds the name. Every value stored in these
        collections is a path, which is truthy, so holding the key is enough. */
    function IsAlreadyBeingProcessed(n: Name): (s: Stage)
      ensures s == Fetched <==> n in fetched.vals
      ensures s == DepsResolved <==> n !in fetched.vals && n in resolved.vals
      ensures s == NotResolved <==> n !in fetched.vals && n !in resolved.vals
    {
      if n in fetched.vals then Fetched
      else if n in resolved.vals then DepsResolved
      else NotResolved
    }

    /** `stageToCollection`: defined for the two stages of the table; any other
        stage is a failed key lookup, here `None`. */
    function StageToCollection(s: Stage): (r: Option<Dict<Name, Path>>)
      ensures r.Some? <==> s == Fetched || s == DepsResolved
      ensures s == Fetched ==> r == Some(fetched)
      ensures s == DepsResolved ==> r == Some(resolved)
    {
      match s
      case Fetched => Some(fetched)
      case DepsResolved => Some(resolved)
      case _ => None
    }
  }

  function EmptyLane(): (l: LaneState)
    ensures l.Valid() && !l.HasWork()
  {
    LaneState(Empty(), Empty(), Empty(), Empty())
  }

  /** `isReInstallationNeeded`. */
  function IsReInstallationNeeded(env: Env, el: Requirement, prefs: Prefs): (r: bool)
    ensures el.marker.Some? ==> !r
    ensures el.marker.None? && env.installedVersion(el.name).None? ==> r
    ensures el.marker.None? && env.installedVersion(el.name).Some? ==>
      (r <==> prefs.upgrade || prefs.forceReinstall || !env.accepts(el.specifier, env.installedVersion(el.name).value))
  {
    if el.marker.Some? then false
    else
      var version := env.installedVersion(el.name);
      if version.Some? then
        if !prefs.upgrade then
          if prefs.forceReinstall then true
          else if env.accepts(el.specifier, version.value) then false
          else true
        else true
      else true
  }

  // ---------------------------------------------------------------------------
  // Fetching (`clonePackagesRepos` and `ResolutionSubRound.fetch`)

  /** A fetcher exists for the spec: it is a `SourceFetcher` whose kind is available. */
  predicate Fetchable(env: Env, spec: FetcherSpec) {
    spec.SourceFetcher? && spec.kind in env.fetchers
  }

  /** Where a fetched package's source ends up: `targetDir / name`, then `/ subDir` when that is non-empty. */
  function OutDir(targetDir: Path, n: Name, spec: FetcherSpec): (p: Path)
    requires spec.SourceFetcher?
    ensures spec.subDir == "" ==> p == Join(targetDir, n)
    ensures spec.subDir != "" ==> p == Join(Join(targetDir, n), spec.subDir)
  {
    var outDir := Join(targetDir, n);
    if spec.subDir != "" then Join(outDir, spec.subDir) else outDir
  }

  /** The fetch request `fetcher(repo, outDir, depth=…, refSpec=…)` for a fetchable name. */
  function FetchEvent(targetDir: Path, n: Name, spec: FetcherSpec): Event
    requires spec.SourceFetcher?
  {
    Fetch(spec.kind, spec.repo, Join(targetDir, n), spec.depth, spec.refSpec)
  }

  /** What `clonePackagesRepos` returns (`res`, `ignored`) and the fetches it makes. */
  datatype CloneResult = CloneResult(res: Dict<Name, Path>, ignored: seq<Pkg>, events: seq<Event>)

  /** `clonePackagesRepos` over the names in order. */
  function CloneRepos(targetDir: Path, names: seq<Name>, env: Env): CloneResult
    decreases |names|
  {
    if names == [] then CloneResult(Empty(), [], [])
    else
      var c := CloneRepos(targetDir, names[..|names| - 1], env);
      var n := names[|names| - 1];
      var pkg := env.lookup(n);
      if Fetchable(env, pkg.fetcher) then
        CloneResult(c.res.Put(n, OutDir(targetDir, n, pkg.fetcher)), c.ignored, c.events + [FetchEvent(targetDir, n, pkg.fetcher)])
      else
        CloneResult(c.res, c.ignored + [pkg], c.events)
  }

  /** `{el.name: el for el in ignored}`. */
  function IgnoredByName(ps: seq<Pkg>): (d: Dict<Name, Pkg>)
    ensures d.Valid()
    ensures forall x :: x in d.vals <==> exists i | 0 <= i < |ps| :: ps[i].name == x
    decreases |ps|
  {
    if ps == [] then Empty()
    else
      var d := IgnoredByName(ps[..|ps| - 1]);
      assert forall i | 0 <= i < |ps| - 1 :: ps[..|ps| - 1][i] == ps[i];
      d.Put(ps[|ps| - 1].name, ps[|ps| - 1])
  }

  /** Every ignored package has the system kind (the check that otherwise raises `NotImplementedError`). */
  predicate AllSystem(ps: seq<Pkg>) {
    forall i | 0 <= i < |ps| :: ps[i].fetcher.kind == SYSTEM
  }

  datatype FetchResult = FetchResult(lane: LaneState, ok: bool, events: seq<Event>)

  /** `ResolutionSubRound.fetch`. On failure nothing of the lane changes; the
      fetches already made stay made. */
  function FetchLane(l: LaneState, sourcesDir: Path, env: Env): FetchResult {
    var c := CloneRepos(sourcesDir, l.toFetch.keys, env);
    if !AllSystem(c.ignored) then FetchResult(l, false, c.events)
    else
      FetchResult(
        l.(fetched := l.fetched.Update(c.res), toFetch := Empty(), ignored := l.ignored.Update(IgnoredByName(c.ignored))),
        true, c.events)
  }

  // ---------------------------------------------------------------------------
  // Scheduling new dependencies (`ResolutionSubRound.appendNewDeps`)

  /** The requirement passes the two checks that come before the cross-lane check:
      its name is not in this lane's `ignored`, and it needs (re)installation. */
  predicate Admitted(env: Env, prefs: Prefs, self: LaneState, el: Requirement) {
    el.name !in self.ignored.vals && IsReInstallationNeeded(env, el, prefs)
  }

  /** The net effect of lines 217-220 on the other lane: the name is written into,
      and then deleted from, the other lane's collection for the stage it is at. */
  function Promote(other: LaneState, n: Name): LaneState {
    match other.IsAlreadyBeingProcessed(n)
    case Fetched => other.(fetched := other.fetched.Remove(n))
    case DepsResolved => other.(resolved := other.resolved.Remove(n))
    case _ => other
  }

  /** What `appendNewDeps` writes: the other lane and the successor lane's `toFetch`. */
  datatype Targets = Targets(other: LaneState, succToFetch: Dict<Name, int>)

  /** One iteration of the loop of `appendNewDeps`. */
  function AppendOne(env: Env, prefs: Prefs, moveToThis: bool, self: LaneState, t: Targets, el: Requirement): Targets {
    if el.name in self.ignored.vals then t
    else if !IsReInstallationNeeded(env, el, prefs) then t
    else
      var n := el.name;
      var other := if t.other.IsAlreadyBeingProcessed(n) != NotResolved && moveToThis then Promote(t.other, n) else t.other;
      if self.IsAlreadyBeingProcessed(n) != NotResolved then Targets(other, t.succToFetch)
      else Targets(other, t.succToFetch.Put(n, 1))
  }

  /** `appendNewDeps` over the requirements in order. */
  function AppendNewDeps(env: Env, prefs: Prefs, moveToThis: bool, self: LaneState, t: Targets, els: seq<Requirement>): Targets
    decreases |els|
  {
    if els == [] then t
    else AppendOne(env, prefs, moveToThis, self, AppendNewDeps(env, prefs, moveToThis, self, t, els[..|els| - 1]), els[|els| - 1])
  }

  /** How many of the requirements named `n` pass the checks before the cross-lane check. */
  function AdmittedCount(env: Env, prefs: Prefs, self: LaneState, els: seq<Requirement>, n: Name): nat
    decreases |els|
  {
    if els == [] then 0
    else
      var el := els[|els| - 1];
      AdmittedCount(env, prefs, self, els[..|els| - 1], n) + (if el.name == n && Admitted(env, prefs, self, el) then 1 else 0)
  }
}
