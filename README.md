# ipi: round-based dependency resolution, modelled in Dafny

ipi installs Python packages from their source repositories. Given the names
to install, `PackagesInstaller.downloadPackagesAndTheirDependencies` runs
*resolution rounds* until no round has anything left to fetch. Each round
(`ResolutionRound`) has two lanes (`ResolutionSubRound`): the build-tool lane
and the package lane. One round does four things:

- It fetches every name pending in either lane (`clonePackagesRepos` through the registry and the source fetchers).
- It extracts the metadata of every fetched package.
- It schedules the package's build dependencies and runtime dependencies into a fresh successor round (`appendNewDeps`), deduplicating against what the lanes already hold.
- It merges the fetched source directories into `installDirs`.

When no work is left, the last round is installed: the build-tool lane first, then the package lane.

Two smaller pieces sit beside the engine:

- `bootstrapBySequence` installs packages in a fixed order. Each package is built with the source trees of its not yet installed dependencies on the build path.
- `getInstalledPackageDistribution` finds an installed distribution whose name may be spelt with dashes or underscores. It refuses to guess when both spellings are installed.

The project has two layers:

- **Value-level specification.** `Lanes` and `Rounds` describe a lane as four insertion-ordered dictionaries (`Dicts.Dict`), a round as two lanes, and each operation as a function. `LaneFacts` and `RoundFacts` prove what the source promises about them.
- **Implementation as classes.** `Pipelines` holds the source's mutable objects as classes: `SubRound`, `Round` and `PackagesInstaller`. Their fields are updated in place by methods with loops. Each method is proved to produce exactly the state and the event log that the specification function gives.

`Bootstrap` has the same two layers: a loop proved against a spec function. `Distlib` is pure functions.

The collaborators are fields of the `Common.Env` datatype:

- the registry lookup;
- the set of available fetcher kinds;
- `extractMetadata`;
- the installed-version query;
- specifier acceptance;
- `unpinRequirement`;
- requirement canonicalisation.

Fetches, metadata extractions, build-and-install calls and the "nothing to install" notice are recorded as `Event`s in a returned log, in the order they happen. The registry, installed-version, specifier, unpin and canonical-name queries are pure `Env` functions and are not logged.

The specification functions, each the partner of the method of the same operation:

- `Lanes.CloneRepos`: `clonePackagesRepos`, ipi/pipelines.py:29-55;
- `Lanes.FetchLane`: `ResolutionSubRound.fetch`, ipi/pipelines.py:136-147;
- `Lanes.AppendNewDeps`: `ResolutionSubRound.appendNewDeps`, ipi/pipelines.py:196-230;
- `Rounds.LaneInstall`: `ResolutionSubRound.buildAndInstallWheel`, ipi/pipelines.py:149-155;
- `Rounds.ResolveLane`: the loop over one lane's fetched entries in `_resolveDeps`, ipi/pipelines.py:277-290;
- `Rounds.ResolveDeps`: `ResolutionRound._resolveDeps`, ipi/pipelines.py:274-290;
- `Rounds.RoundCall`: `ResolutionRound.__call__`, ipi/pipelines.py:292-306;
- `Rounds.RoundInstall`: `ResolutionRound.buildAndInstallWheel`, ipi/pipelines.py:308-310;
- `Rounds.Seed`: the first round, ipi/pipelines.py:92-93;
- `Rounds.Drive` with `Rounds.RoundCaller`, and `Rounds.Run`: the `while rr:` loop, ipi/pipelines.py:96-98;
- `Rounds.Download` with `Rounds.Finish`: `downloadPackagesAndTheirDependencies`, ipi/pipelines.py:91-100;
- `Bootstrap.BuildPath`: the build path of one step, ipi/bootstrap/utils.py:20;
- `Bootstrap.RunSteps`: `bootstrapBySequence`, ipi/bootstrap/utils.py:16-22.

Several lines behave differently from what their names suggest; the model follows the code:

- **Promotion only deletes.** ipi/pipelines.py:217-220 reads the other lane's collection twice. A promotion therefore only deletes the name from the other lane; nothing is added to this lane (`Lanes.Promote`, `Dicts.RemoveAfterPut`).
- **The cross-lane check never skips.** The `continue` at ipi/pipelines.py:223 belongs to the inner loop, so it never prevents scheduling.
- **Only the successor's package lane receives `resolved`.** ipi/pipelines.py:290 uses the `successorSubRound` left over from the loop at line 282. That is always the successor's package lane, so the build lane's `resolved` is never carried into the successor's build lane. Line 290 also sits inside the loop over the lane's fetched entries (line 277), so a lane's `resolved` is carried only when that lane fetched at least one entry in the round.
- **A package can be fetched and never installed.** Take a package A whose only requirement is a build tool B. Round 1 resolves A in the package lane, carries it into round 2's package lane, and schedules B into round 2's build lane. In round 2 the package lane fetches nothing, so A is not carried into round 3; only B is. The install phase then builds B and never A (`RoundFacts.ResolveDepsIdlePackages`, `RoundFacts.RoundCallDropsIdleResolved`).
- **Line 290 can raise.** When the first fetched entry of a lane is ignored before any entry bound `successorSubRound`, line 290 raises `UnboundLocalError` (`Rounds.Error.UnboundSuccessor`).
- **`fetch` raises late.** It raises `NotImplementedError` after all fetches of the lane have been made, and before the lane is touched.
- **Lanes are rebuilt each round.** Lanes are recreated every round, so `ignored` does not persist across rounds. The package lane is built with index `build` (ipi/pipelines.py:239).

## Model

| member | source | states |
|---|---|---|
| `Lanes.Prefs.Clone` | ipi/pipelines.py:66-67 | each field of the clone is the override when one is given and the receiver's field otherwise |
| `LaneFacts.CloneOverrides` | ipi/pipelines.py:66-67 | cloning without overrides gives an equal value; a second clone's overrides win over the first one's |
| `LaneFacts.LanePatches` | ipi/pipelines.py:238-239 | the build lane's `prefsPatch` turns `forceReinstall` off and keeps the rest; the package lane's changes nothing |
| `Lanes.LaneState.IsAlreadyBeingProcessed` | ipi/pipelines.py:179-191 | `fetched` when the name is in `fetched`, else `depsResolved` when it is in `resolved`, else `notResolved`, each as an if-and-only-if |
| `Lanes.LaneState.StageToCollection` | ipi/pipelines.py:193-194 | defined exactly for the stages `fetched` and `depsResolved`, giving those collections |
| `LaneFacts.StageLookupAgrees` | ipi/pipelines.py:179-194 | a stage other than `notResolved` names a collection that holds the name; `toFetch` and `ignored` never affect the answer |
| `Lanes.EmptyLane` | ipi/pipelines.py:125-128 | a new lane's four dictionaries are empty and well formed, and the lane has no work |
| `Lanes.IsReInstallationNeeded` | ipi/pipelines.py:157-177 | false with a marker; true when nothing is installed; false when installed, upgrade and forceReinstall are off and the specifier accepts the installed version; true otherwise |
| `Lanes.OutDir` | ipi/pipelines.py:34-51 | a fetched package lands in `targetDir/name`, with `subDir` appended when the spec has one |
| `Lanes.IgnoredByName` | ipi/pipelines.py:143 | the ignored packages keyed by their registry names: exactly those names |
| `Pipelines.ClonePackagesRepos` | ipi/pipelines.py:29-55 | the loop returns exactly the fetched directories, the ignored registry entries and the fetches that `Lanes.CloneRepos` gives |
| `LaneFacts.CloneReposFacts` | ipi/pipelines.py:29-55 | every requested name is fetched into its output directory or ignored; for distinct names exactly one of the two, with as many fetch calls as fetched names |
| `LaneFacts.CloneReposEvents` | ipi/pipelines.py:33-53 | for distinct names, the i-th fetch call is the one for the i-th fetched name: its kind, repository, `targetDir/name`, depth and ref spec |
| `Pipelines.SubRound.constructor` | ipi/pipelines.py:119-128 | a new lane keeps its index and kind and starts with empty dictionaries |
| `Pipelines.SubRound.Fetch` | ipi/pipelines.py:136-147 | the lane's new dictionaries, the raise and the fetches are those that `Lanes.FetchLane` gives for the old lane |
| `LaneFacts.FetchLaneFacts` | ipi/pipelines.py:136-147 | fetch raises exactly when an ignored entry is not of the system kind, and then leaves the lane unchanged; otherwise `toFetch` is emptied, fetchable names join `fetched` at their output directory, the others join `ignored`, and earlier entries are kept |
| `Pipelines.SubRound.BuildAndInstallWheel` | ipi/pipelines.py:149-155 | equals `Rounds.LaneInstall` of the lane: one build-and-install per resolved name in insertion order, or a "nothing to install" notice for an empty lane |
| `Pipelines.SubRound.AppendNewDeps` | ipi/pipelines.py:196-230 | the other lane and the successor's `toFetch` end as `Lanes.AppendNewDeps` gives for the whole requirement list; nothing else changes |
| `LaneFacts.AppendSchedules` | ipi/pipelines.py:196-230 | a name enters the successor's `toFetch` exactly when some requirement of that name is not ignored, needs (re)installation, and this lane has it neither fetched nor resolved; the value written is 1 |
| `LaneFacts.AppendOtherFrame` | ipi/pipelines.py:212-223 | the other lane only loses `fetched`/`resolved` entries and keeps `toFetch` and `ignored`; without `moveToThis` it is untouched |
| `LaneFacts.AppendPromotes` | ipi/pipelines.py:214-220 | with `moveToThis`, each admitted occurrence deletes the name from the other lane's collection for the stage it is at |
| `Dicts.RemoveAfterPut` | ipi/pipelines.py:219-220 | writing a key and then deleting it has the effect of the deletion alone |
| `LaneFacts.MarkerNeverScheduled` | ipi/pipelines.py:157-159 | a requirement with an environment marker never causes scheduling |
| `LaneFacts.SkipOnSatisfied` | ipi/pipelines.py:164-171 | without upgrade and forceReinstall, a requirement whose installed version satisfies it is never scheduled |
| `LaneFacts.ForceOverridesSkip` | ipi/pipelines.py:166-167 | with forceReinstall, a marker-free requirement that the lane neither ignores nor holds is scheduled whatever is installed |
| `LaneFacts.BuildDepSatisfiedSkipped` | ipi/pipelines.py:238 | under the build lane's preferences a satisfied requirement is skipped even when forced reinstallation was asked for |
| `Rounds.NewRound` | ipi/pipelines.py:236-240 | a new round's two lanes are empty and well formed, and it has no work |
| `Pipelines.Round.constructor` | ipi/pipelines.py:236-240 | two fresh lanes; both get the index `build` |
| `RoundFacts.ResolveLaneFrame` | ipi/pipelines.py:277-290 | visiting a lane's entries changes only what the frame allows in the visited lane, the other lane and the two successor lanes |
| `RoundFacts.ResolveLaneKeeps` | ipi/pipelines.py:277-290 | the visited lane's `fetched`, `toFetch` and `ignored` are left as they are |
| `RoundFacts.ResolveLaneResolvedKeys` | ipi/pipelines.py:288 | the visited lane's `resolved` gains only names of visited entries |
| `RoundFacts.ResolveLaneError` | ipi/pipelines.py:277-290 | visiting fails exactly when `successorSubRound` is unbound and the first entry is ignored, changing nothing; otherwise it ends bound when some entry was not ignored |
| `RoundFacts.ResolveLaneResolved` | ipi/pipelines.py:277-288 | every visited entry not ignored has its metadata extracted once and in order, and is recorded as resolved with its directory; nothing else is recorded |
| `RoundFacts.ResolveLaneCarries` | ipi/pipelines.py:290 | the successor's package lane gains the visited lane's final `resolved` when the lane had entries; the successor's build lane's `resolved` is never written |
| `RoundFacts.ResolveLaneSchedules` | ipi/pipelines.py:282-287 | a name is scheduled into a successor lane exactly when it was there already or some entry of the visited lane schedules it by that lane's dependency getter and preferences |
| `RoundFacts.ResolveDepsError` | ipi/pipelines.py:274-290 | `_resolveDeps` fails exactly when the first fetched entry it visits is ignored, and then before changing anything |
| `RoundFacts.ResolveDepsFacts` | ipi/pipelines.py:274-290 | without error, `toFetch`, `ignored` and the build lane's `fetched` are kept, the package lane only loses promoted entries, the build lane's `resolved` gains its non-ignored fetched entries, and the successor receives only `toFetch` entries and this round's resolved names |
| `Pipelines.Round.VisitLane` | ipi/pipelines.py:277-290 | the loop over one lane's fetched entries ends in the state, error and events that `Rounds.ResolveLane` gives for those entries in order |
| `Pipelines.Round.VisitEntry` | ipi/pipelines.py:278-290 | one entry: processed when not ignored; an ignored one raises while `successorSubRound` is unbound and otherwise only carries `resolved` forward |
| `Pipelines.Round.ProcessEntry` | ipi/pipelines.py:280-290 | one non-ignored entry: metadata extracted, dependencies scheduled into both successor lanes, entry resolved, `resolved` carried into the successor's package lane |
| `Pipelines.Round.ResolveDeps` | ipi/pipelines.py:274-290 | the four lanes, the error and the events end as `Rounds.ResolveDeps` gives for the old round and successor |
| `Pipelines.Round.Call` | ipi/pipelines.py:292-306 | the called lanes, the new round, `installDirs`, the error and the events are those that `Rounds.RoundCall` gives |
| `RoundFacts.RoundCallErrors` | ipi/pipelines.py:292-306 | a round fails only by a fetcher that raises or by line 290, and then leaves `installDirs` as it was |
| `RoundFacts.RoundCallInstallDirs` | ipi/pipelines.py:303-304 | `installDirs` ends as what it held, overridden by the build lane's and then the package lane's `fetched`; it only gains keys |
| `RoundFacts.RoundCallDone` | ipi/pipelines.py:296-298 | after a successful round both lanes have nothing left to fetch |
| `RoundFacts.RoundCallNext` | ipi/pipelines.py:293 | the new round holds nothing fetched, resolved or ignored except the package lane's carried `resolved` |
| `RoundFacts.RoundCallCovered` | ipi/pipelines.py:292-306 | a successful round keeps every resolved name covered by an `installDirs` key, in the called round and in the new one |
| `RoundFacts.ResolveDepsIdlePackages` | ipi/pipelines.py:277-290 | when the package lane fetched nothing, the successor's package lane receives only the build lane's final `resolved`, and that only if the build lane fetched something |
| `RoundFacts.RoundCallDropsIdleResolved` | ipi/pipelines.py:292-306 | a round whose package lane has nothing pending or fetched gives a new package lane holding only names the build lane resolved; a package resolved earlier and not by the build lane is dropped |
| `Rounds.SeedNames` | ipi/pipelines.py:93 | the seed dictionary holds exactly the canonical names of the requested packages, each with value 1 |
| `RoundFacts.SeedFacts` | ipi/pipelines.py:92-93 | only the first round's package lane has anything to fetch: the requested canonical names |
| `RoundFacts.DriveFacts` | ipi/pipelines.py:96-98 | a loop of rounds that keep their guarantees keeps resolved names covered and `installDirs` growing, and ends with nothing to fetch when it completes; when the first round's build lane has nothing resolved, neither has the final round's; it never fails for a missing install directory |
| `RoundFacts.RunFacts` | ipi/pipelines.py:96-98 | the download's own loop of rounds has the facts of `DriveFacts` |
| `RoundFacts.RunIgnoresUpgrade` | ipi/pipelines.py:97 | every round runs with `upgrade` cleared, so the caller's `upgrade` has no effect |
| `RoundFacts.InstallEachFacts` | ipi/pipelines.py:152-153 | installing succeeds exactly when every name has an install directory, building them in order; otherwise it stops at the first name without one |
| `RoundFacts.RoundInstallFacts` | ipi/pipelines.py:308-310 | a round with no resolved build tool reports that, then builds its resolved packages in order or reports nothing to install |
| `Pipelines.Round.BuildAndInstallWheel` | ipi/pipelines.py:308-310 | equals `Rounds.RoundInstall`: the build lane is installed first, then the package lane |
| `RoundFacts.FinishFacts` | ipi/pipelines.py:100 | the install phase completes exactly when the loop did and never fails for a missing install directory |
| `RoundFacts.DownloadFacts` | ipi/pipelines.py:91-100 | the download never fails for a missing install directory; once the rounds complete it reports no build tool to install, then builds the last round's resolved packages in order or reports nothing to install |
| `Pipelines.PackagesInstaller.constructor` | ipi/pipelines.py:73-80 | a new installer has no install directories and no ignored names |
| `Pipelines.PackagesInstaller.SeedRound` | ipi/pipelines.py:92-93 | the first round is fresh and holds `Rounds.Seed` of the requested names |
| `Pipelines.PackagesInstaller.DriveRounds` | ipi/pipelines.py:96-98 | the `while rr:` loop ends with the round, `installDirs`, events and outcome that `Rounds.Drive` gives for the round caller `call`, which is `Rounds.RoundCall` with fixed preferences and sources directory |
| `Pipelines.PackagesInstaller.Advance` | ipi/pipelines.py:96-97 | one iteration: what remains of `Rounds.Drive` is `Rounds.Drive` from the new round with one less fuel, or nothing once the round raised |
| `Pipelines.PackagesInstaller.CallRound` | ipi/pipelines.py:97 | one round call equals the round caller `call`, i.e. `Rounds.RoundCall` with the loop's preferences and sources directory |
| `Pipelines.PackagesInstaller.DownloadPackagesAndTheirDependencies` | ipi/pipelines.py:91-100 | `installDirs`, the events and the outcome are those of `Rounds.Download` (seed, `Rounds.Run` of the rounds, then `Rounds.Finish`); `ignored` is untouched |
| `Bootstrap.BuildPathAppend` | ipi/bootstrap/utils.py:20 | the build path of concatenated entries is the first part's followed by the rest's, the first missing name winning: surviving entries keep their order |
| `Bootstrap.BuildPathOne` | ipi/bootstrap/utils.py:20 | an installed name contributes nothing, another name its cloned directory or a key error, a directory itself |
| `Bootstrap.BuildPathDropsInstalled` | ipi/bootstrap/utils.py:20 | an entry naming an already installed package is dropped from wherever it stands |
| `Bootstrap.BuildPathFound` | ipi/bootstrap/utils.py:20 | the path is found exactly when every surviving name has a cloned directory, and is then the surviving entries, filtered first and mapped second |
| `Bootstrap.BuildPathMissing` | ipi/bootstrap/utils.py:20 | otherwise the key error names the first surviving name without a cloned directory |
| `Bootstrap.RunStepsInstalled` | ipi/bootstrap/utils.py:16-22 | without error, `alreadyInstalled` ends as the names of all steps |
| `Bootstrap.RunStepsEvents` | ipi/bootstrap/utils.py:17-21 | without error, step i makes the i-th build-and-install: its own directory, with that directory first on the build path and then its entries filtered against the names of the earlier steps |
| `Bootstrap.RunStepsSucceeds` | ipi/bootstrap/utils.py:17-22 | the sequence runs without error exactly when every step's name has a cloned directory and every entry that survives the filter against the earlier steps' names has one too |
| `Bootstrap.RunStepsFails` | ipi/bootstrap/utils.py:17-22 | a `KeyError(k)` is raised at some step: the steps before it ran without error and made all the build-and-install calls, and `k` is that step's uncloned name or the first uncloned surviving entry of its build path |
| `Bootstrap.SelfDependencyKept` | ipi/bootstrap/utils.py:20-22 | a step's own name among its entries is kept unless an earlier step had that name: it is added only after its build |
| `Bootstrap.BootstrapBySequence` | ipi/bootstrap/utils.py:8-22 | the loop makes exactly the build-and-install calls, and stops with exactly the key error, that `Bootstrap.RunSteps` gives |
| `Distlib.SelectKeys` | ipi/tools/distlib.py:13 | the selection succeeds exactly when every key is in the scheme, giving their values in key order; otherwise it fails on the first missing key |
| `Distlib.GenDistlibPath` | ipi/tools/distlib.py:9-13 | exactly the scheme's `platlib`, `platstdlib` and `purelib` values, in that order, the default scheme being used when none is given; otherwise the first missing of these keys |
| `Distlib.Choose` | ipi/tools/distlib.py:24-33 | coinciding forms: the single lookup; differing forms: both looked up, both installed is a refusal, exactly one installed gives it, neither gives nothing |
| `Distlib.GetInstalledPackageDistribution` | ipi/tools/distlib.py:20-33 | when pip's default scheme lacks platlib, platstdlib or purelib, the `KeyError` names the first missing one and nothing is looked up. Otherwise the database is opened over those three directories in order. Equal spellings are looked up once. Distinct spellings are both looked up, dash first: both present refuses with both distributions, exactly one present returns it, neither returns `None`. A returned distribution is never a guess between the two |
| `Distlib.ChooseNeverGuesses` | ipi/tools/distlib.py:24-31 | a distribution is returned only when it is installed under one spelling and the other spelling is not installed |
| `Distlib.ChooseSymmetric` | ipi/tools/distlib.py:24-31 | which form is called the dash form does not matter: swapping them gives the same answer and the lookups in the other order |

## Left out

- Console output: `print`, `styles`, `ic` and `__repr__`. The `GitHubActionsGroup` of `bootstrapBySequence` is output only too. All are left out.
- The collaborators are uninterpreted functions in `Common.Env`; their own behaviour and their own exceptions are not modelled:
  - the registry;
  - the source fetchers, which are only recorded as `Fetch` events;
  - `extractMetadata`;
  - the installed-package database and `packaging` specifiers;
  - `unpinRequirement`;
  - `canonicalizedRequirement` and `canonicalizePackageNameMulti`.
- Wheel building and installing is an abstract action, one `BuildAndInstall` event per call: `buildWheel*`, the install backend choice and `buildAndInstallWheelFromGitURI`.
- `PackagesInstaller.__call__` is not modelled: it resets the installer, creates the `TemporaryDirectory` and calls `cleanup()`. The sources directory is a parameter of the download.
- Pipelines.PackagesInstaller.DownloadPackagesAndTheirDependencies: runs at most `fuel` rounds and then stops with `OutOfFuel`. The source's `while rr:` loop has no such bound and may not terminate, so a non-terminating run is not modelled.
- The default arguments of `ResolutionPrefs.__init__` (ipi/pipelines.py:61) are not modelled. Every operation of the model, like every call in ipi/pipelines.py, takes the preferences as an argument.
- Environment markers are not evaluated. The source only tests whether a marker is present.
- `ResolutionSubRoundPipelineStage` is the datatype `Lanes.Stage`. Its `built` and `installed` members are never produced. The enum's truthiness (`notResolved` is 0) is modelled as a test against `NotResolved`.
- `thisOtherSubRounds` and `subroundSuccessorPrefs` are not separate members. Both generators are written out inside `Rounds.ResolveDeps` and `Pipelines.Round.ResolveDeps`: the build lane, then the package lane, each with the opposite lane as its only other lane.
- Pipelines.SubRound.AppendNewDeps: requires the lane, the other lane and the successor lane to be three distinct objects, which is always the case where `_resolveDeps` calls it. Aliased lanes are not modelled.
- Bootstrap.BootstrapBySequence: treats each step's `pythonPaths` as a tuple. Given a list, `type(pythonPaths)(...)` keeps a list and `(targetDir,) + pythonPaths` would raise `TypeError`; that exception is not modelled.
- Distlib.GetInstalledPackageDistribution: `DistributionPath` over the selected directories is the abstract function `distributionsAt`. Every distribution it returns is taken to be truthy, so absence is `None`. `genDistlibDistributionPath` (ipi/tools/distlib.py:16-17) is folded into this member.
