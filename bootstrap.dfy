/** `bootstrapBySequence`: installing packages that depend on each other (or on
    themselves) in a fixed order, each built with the source trees of its
    dependencies on the build search path. */
module Bootstrap {
  import opened Common

  /** An item of a step's `pythonPaths`: a package name (a key of `clonedDirs`)
      or a directory given as is. */
  datatype PathEntry = NameEntry(name: Name) | DirEntry(dir: Path)

  /** An item of `bootstrapSequence`: `(name, pythonPaths)`. */
  datatype Step = Step(name: Name, pythonPaths: seq<PathEntry>)

  /** The value of a lookup, or the key that `clonedDirs[...]` failed on (`KeyError`). */
  datatype Lookup<T> = Found(value: T) | KeyError(key: Name)

  // ---------------------------------------------------------------------------
  // The per-step build path (the comprehension at line 20)

  /** `el not in alreadyInstalled`: a directory is never one of the installed
      names, a name is kept unless it was installed at an earlier step. */
  predicate Kept(installed: set<Name>, e: PathEntry) {
    e.DirEntry? || e.name !in installed
  }

  /** The entry's directory: `clonedDirs[el]` for a name, the entry itself otherwise. */
  function EntryDir(clonedDirs: map<Name, Path>, e: PathEntry): Lookup<Path> {
    if e.DirEntry? then Found(e.dir)
    else if e.name in clonedDirs then Found(clonedDirs[e.name])
    else KeyError(e.name)
  }

  /** `tuple((clonedDirs[el] if isinstance(el, str) else el) for el in pythonPaths if el not in alreadyInstalled)`,
      evaluated from the first entry on, so that the first kept name without a
      directory is the one reported. */
  function BuildPath(clonedDirs: map<Name, Path>, installed: set<Name>, entries: seq<PathEntry>): Lookup<seq<Path>>
    decreases |entries|
  {
    if entries == [] then Found([])
    else if !Kept(installed, entries[0]) then BuildPath(clonedDirs, installed, entries[1..])
    else match EntryDir(clonedDirs, entries[0])
      case KeyError(k) => KeyError(k)
      case Found(d) =>
        match BuildPath(clonedDirs, installed, entries[1..])
        case KeyError(k) => KeyError(k)
        case Found(ds) => Found([d] + ds)
  }

  /** Two lookups one after the other: the first error wins, otherwise the results are joined. */
  function Then(a: Lookup<seq<Path>>, b: Lookup<seq<Path>>): Lookup<seq<Path>> {
    if a.KeyError? then a
    else if b.KeyError? then b
    else Found(a.value + b.value)
  }

  /** The entries that survive the filter, in order. */
  function KeptEntries(installed: set<Name>, entries: seq<PathEntry>): (r: seq<PathEntry>)
    ensures forall e :: e in r <==> e in entries && Kept(installed, e)
    decreases |entries|
  {
    if entries == [] then []
    else
      var rest := KeptEntries(installed, entries[1..]);
      assert forall x :: x in entries <==> x == entries[0] || x in entries[1..];
      (if Kept(installed, entries[0]) then [entries[0]] else []) + rest
  }

  /** Each entry replaced by its directory, for entries whose names all have one. */
  function Dirs(clonedDirs: map<Name, Path>, entries: seq<PathEntry>): (r: seq<Path>)
    requires forall e | e in entries && e.NameEntry? :: e.name in clonedDirs
    ensures |r| == |entries|
    ensures forall i | 0 <= i < |entries| :: r[i] == EntryDir(clonedDirs, entries[i]).value
    decreases |entries|
  {
    if entries == [] then [] else [EntryDir(clonedDirs, entries[0]).value] + Dirs(clonedDirs, entries[1..])
  }

  /** The build path of a list of entries is the build path of its first part
      followed by that of the rest, the first missing name winning: surviving
      entries keep their relative order. */
  lemma {:induction false} BuildPathAppend(clonedDirs: map<Name, Path>, installed: set<Name>, a: seq<PathEntry>, b: seq<PathEntry>)
    ensures BuildPath(clonedDirs, installed, a + b) == Then(BuildPath(clonedDirs, installed, a), BuildPath(clonedDirs, installed, b))
    decreases |a|
  {
    if a == [] {
      assert a + b == b;
      var rb := BuildPath(clonedDirs, installed, b);
      assert rb.Found? ==> [] + rb.value == rb.value;
    } else {
      assert (a + b)[0] == a[0];
      assert (a + b)[1..] == a[1..] + b;
      BuildPathAppend(clonedDirs, installed, a[1..], b);
      var ra, rb := BuildPath(clonedDirs, installed, a[1..]), BuildPath(clonedDirs, installed, b);
      if Kept(installed, a[0]) && EntryDir(clonedDirs, a[0]).Found? && ra.Found? && rb.Found? {
        var d := EntryDir(clonedDirs, a[0]).value;
        assert [d] + (ra.value + rb.value) == ([d] + ra.value) + rb.value;
      }
    }
  }

  /** One entry: an installed name contributes nothing, another name its
      cloned directory (or the `KeyError`), a directory itself. */
  lemma BuildPathOne(clonedDirs: map<Name, Path>, installed: set<Name>, e: PathEntry)
    ensures BuildPath(clonedDirs, installed, [e]) ==
      if !Kept(installed, e) then Found([])
      else if e.DirEntry? then Found([e.dir])
      else if e.name in clonedDirs then Found([clonedDirs[e.name]])
      else KeyError(e.name)
  {
    assert [e][1..] == [];
    assert BuildPath(clonedDirs, installed, []) == Found([]);
    assert forall d: Path :: [d] + [] == [d];
  }

  /** An entry naming a package installed at an earlier step is dropped from
      wherever it stands. */
  lemma BuildPathDropsInstalled(clonedDirs: map<Name, Path>, installed: set<Name>, a: seq<PathEntry>, n: Name, b: seq<PathEntry>)
    requires n in installed
    ensures BuildPath(clonedDirs, installed, a + [NameEntry(n)] + b) == BuildPath(clonedDirs, installed, a + b)
  {
    BuildPathAppend(clonedDirs, installed, a + [NameEntry(n)], b);
    BuildPathAppend(clonedDirs, installed, a, [NameEntry(n)]);
    BuildPathOne(clonedDirs, installed, NameEntry(n));
    BuildPathAppend(clonedDirs, installed, a, b);
    assert BuildPath(clonedDirs, installed, a).Found? ==> BuildPath(clonedDirs, installed, a).value + [] == BuildPath(clonedDirs, installed, a).value;
  }

  /** Every surviving name has a cloned directory. */
  ghost predicate AllCloned(clonedDirs: map<Name, Path>, kept: seq<PathEntry>) {
    forall e | e in kept && e.NameEntry? :: e.name in clonedDirs
  }

  /** `kept[j]` is the first entry naming a package without a cloned directory. */
  ghost predicate FirstMissing(clonedDirs: map<Name, Path>, kept: seq<PathEntry>, j: int) {
    && 0 <= j < |kept|
    && kept[j].NameEntry? && kept[j].name !in clonedDirs
    && forall i | 0 <= i < j && kept[i].NameEntry? :: kept[i].name in clonedDirs
  }

  /** The build path is found exactly when every surviving name has a cloned
      directory, and then it is the surviving entries, filtered first and
      mapped to their directories second. */
  lemma {:induction false} BuildPathFound(clonedDirs: map<Name, Path>, installed: set<Name>, entries: seq<PathEntry>)
    ensures var r := BuildPath(clonedDirs, installed, entries);
      var kept := KeptEntries(installed, entries);
      && (r.Found? <==> AllCloned(clonedDirs, kept))
      && (r.Found? ==> r.value == Dirs(clonedDirs, kept))
    decreases |entries|
  {
    if entries != [] {
      var e, rest := entries[0], entries[1..];
      BuildPathFound(clonedDirs, installed, rest);
      var kr := KeptEntries(installed, rest);
      if Kept(installed, e) {
        var kept := [e] + kr;
        assert kept[1..] == kr;
        assert forall x :: x in kept <==> x == e || x in kr;
      }
    }
  }

  /** A present entry in front keeps the first missing one first. */
  lemma FirstMissingShift(clonedDirs: map<Name, Path>, e: PathEntry, kept: seq<PathEntry>, j: int)
    requires FirstMissing(clonedDirs, kept, j) && (e.DirEntry? || e.name in clonedDirs)
    ensures FirstMissing(clonedDirs, [e] + kept, j + 1) && ([e] + kept)[j + 1] == kept[j]
  {
    var k := [e] + kept;
    forall i | 0 <= i < j + 1 && k[i].NameEntry?
      ensures k[i].name in clonedDirs
    {
      if i > 0 { assert k[i] == kept[i - 1]; }
    }
  }

  /** Otherwise the error names the first surviving name without a cloned directory. */
  lemma {:induction false} BuildPathMissing(clonedDirs: map<Name, Path>, installed: set<Name>, entries: seq<PathEntry>)
    ensures var r := BuildPath(clonedDirs, installed, entries);
      r.KeyError? ==> exists j :: FirstMissing(clonedDirs, KeptEntries(installed, entries), j) && r.key == KeptEntries(installed, entries)[j].name
    decreases |entries|
  {
    var r := BuildPath(clonedDirs, installed, entries);
    if entries != [] && r.KeyError? {
      var e, rest := entries[0], entries[1..];
      var kr := KeptEntries(installed, rest);
      if !Kept(installed, e) {
        assert KeptEntries(installed, entries) == kr;
        BuildPathMissing(clonedDirs, installed, rest);
      } else if EntryDir(clonedDirs, e).KeyError? {
        assert KeptEntries(installed, entries) == [e] + kr;
        assert FirstMissing(clonedDirs, [e] + kr, 0) && r.key == ([e] + kr)[0].name;
      } else {
        BuildPathMissing(clonedDirs, installed, rest);
        var j :| FirstMissing(clonedDirs, kr, j) && r.key == kr[j].name;
        assert KeptEntries(installed, entries) == [e] + kr;
        FirstMissingShift(clonedDirs, e, kr, j);
      }
    }
  }

  // ---------------------------------------------------------------------------
  // The sequence of steps (the `for` loop at lines 17-22)

  /** What the loop has done so far: the build-and-install calls, the names in
      `alreadyInstalled`, and the key of the `KeyError` that ended it, if one did. */
  datatype BootState = BootState(events: seq<Event>, installed: set<Name>, err: Option<Name>)

  /** One step: `targetDir = clonedDirs[name]`, the build path, then
      `buildAndInstallWheel(targetDir, buildPythonPath=(targetDir,) + pythonPaths)`,
      and only then `alreadyInstalled |= {name}`. */
  function StepOnce(clonedDirs: map<Name, Path>, s: BootState, step: Step): BootState {
    if step.name !in clonedDirs then s.(err := Some(step.name))
    else
      var targetDir := clonedDirs[step.name];
      match BuildPath(clonedDirs, s.installed, step.pythonPaths)
      case KeyError(k) => s.(err := Some(k))
      case Found(ps) => BootState(s.events + [BuildAndInstall(targetDir, [targetDir] + ps)], s.installed + {step.name}, None)
  }

  /** The loop over `bootstrapSequence`, stopping at the first `KeyError`. */
  function RunSteps(clonedDirs: map<Name, Path>, steps: seq<Step>): BootState
    decreases |steps|
  {
    if steps == [] then BootState([], {}, None)
    else
      var s := RunSteps(clonedDirs, steps[..|steps| - 1]);
      if s.err.Some? then s else StepOnce(clonedDirs, s, steps[|steps| - 1])
  }

  /** The names of the steps. */
  function NamesOf(steps: seq<Step>): (r: set<Name>)
    ensures forall n :: n in r <==> exists i | 0 <= i < |steps| :: steps[i].name == n
  {
    set i | 0 <= i < |steps| :: steps[i].name
  }

  /** Once a prefix of the steps fails, the whole sequence fails the same way. */
  lemma {:induction false} RunStepsStops(clonedDirs: map<Name, Path>, steps: seq<Step>, k: nat)
    requires k <= |steps| && RunSteps(clonedDirs, steps[..k]).err.Some?
    ensures RunSteps(clonedDirs, steps) == RunSteps(clonedDirs, steps[..k])
    decreases |steps| - k
  {
    if k < |steps| {
      assert steps[..k + 1][..k] == steps[..k];
      RunStepsStops(clonedDirs, steps, k + 1);
    } else {
      assert steps[..k] == steps;
    }
  }

  /** Without error, `alreadyInstalled` ends as the names of all steps. */
  lemma {:induction false} RunStepsInstalled(clonedDirs: map<Name, Path>, steps: seq<Step>)
    ensures var s := RunSteps(clonedDirs, steps);
      s.err.None? ==> s.installed == NamesOf(steps)
    decreases |steps|
  {
    if steps != [] {
      var init := steps[..|steps| - 1];
      RunStepsInstalled(clonedDirs, init);
      assert forall i | 0 <= i < |init| :: init[i] == steps[i];
    }
  }

  /** Step `i` made the build-and-install call `ev`: of its own cloned
      directory, with that directory first on the build path and then the
      step's entries, filtered against the names of the steps before it (not
      including its own). */
  ghost predicate MadeStep(clonedDirs: map<Name, Path>, steps: seq<Step>, i: nat, ev: Event)
    requires i < |steps|
  {
    var paths := BuildPath(clonedDirs, NamesOf(steps[..i]), steps[i].pythonPaths);
    && steps[i].name in clonedDirs
    && paths.Found?
    && ev == BuildAndInstall(clonedDirs[steps[i].name], [clonedDirs[steps[i].name]] + paths.value)
  }

  /** Without error, step `i` made exactly the `i`-th build-and-install call. */
  lemma {:induction false} RunStepsEvents(clonedDirs: map<Name, Path>, steps: seq<Step>)
    ensures var s := RunSteps(clonedDirs, steps);
      s.err.None? ==>
        && |s.events| == |steps|
        && forall i | 0 <= i < |steps| :: MadeStep(clonedDirs, steps, i, s.events[i])
    decreases |steps|
  {
    var s := RunSteps(clonedDirs, steps);
    if steps != [] && s.err.None? {
      var init := steps[..|steps| - 1];
      var si := RunSteps(clonedDirs, init);
      RunStepsEvents(clonedDirs, init);
      RunStepsInstalled(clonedDirs, init);
      assert s == StepOnce(clonedDirs, si, steps[|init|]);
      forall i | 0 <= i < |steps|
        ensures MadeStep(clonedDirs, steps, i, s.events[i])
      {
        if i < |init| {
          assert init[..i] == steps[..i];
          assert MadeStep(clonedDirs, init, i, si.events[i]);
        } else {
          assert steps[..i] == init;
        }
      }
    }
  }

  /** The sequence runs without error exactly when every step's name is cloned
      and every entry of its build path that survives the filter against the
      earlier steps' names is cloned. */
  lemma {:induction false} RunStepsSucceeds(clonedDirs: map<Name, Path>, steps: seq<Step>)
    ensures RunSteps(clonedDirs, steps).err.None? <==>
      forall i | 0 <= i < |steps| ::
        steps[i].name in clonedDirs && BuildPath(clonedDirs, NamesOf(steps[..i]), steps[i].pythonPaths).Found?
    decreases |steps|
  {
    if steps != [] {
      var init := steps[..|steps| - 1];
      RunStepsSucceeds(clonedDirs, init);
      RunStepsInstalled(clonedDirs, init);
      assert forall i | 0 <= i < |init| :: init[i] == steps[i] && init[..i] == steps[..i];
      assert steps[..|init|] == init;
    }
  }

  /** A sequence that raises `KeyError(k)` raised it at some step `i`: the steps
      before `i` ran without error and made every build-and-install call there
      is, and `k` is step `i`'s own name, not cloned, or the first surviving
      entry of its build path that is not cloned. */
  lemma {:induction false} RunStepsFails(clonedDirs: map<Name, Path>, steps: seq<Step>, k: Name)
    requires RunSteps(clonedDirs, steps).err == Some(k)
    ensures exists i | 0 <= i < |steps| ::
      && RunSteps(clonedDirs, steps[..i]).err.None?
      && RunSteps(clonedDirs, steps[..i]).events == RunSteps(clonedDirs, steps).events
      && (if steps[i].name !in clonedDirs then k == steps[i].name
          else BuildPath(clonedDirs, NamesOf(steps[..i]), steps[i].pythonPaths) == KeyError(k))
    decreases |steps|
  {
    var init := steps[..|steps| - 1];
    var si := RunSteps(clonedDirs, init);
    if si.err.Some? {
      RunStepsFails(clonedDirs, init, k);
      var i :| 0 <= i < |init| && RunSteps(clonedDirs, init[..i]).err.None?
        && RunSteps(clonedDirs, init[..i]).events == si.events
        && (if init[i].name !in clonedDirs then k == init[i].name
            else BuildPath(clonedDirs, NamesOf(init[..i]), init[i].pythonPaths) == KeyError(k));
      assert init[..i] == steps[..i] && init[i] == steps[i];
    } else {
      RunStepsInstalled(clonedDirs, init);
      assert steps[..|init|] == init;
    }
  }

  /** A step whose own name is among its entries builds with its own directory
      on the path, unless an earlier step had the same name: a name is added to
      `alreadyInstalled` only after its build. */
  lemma SelfDependencyKept(clonedDirs: map<Name, Path>, steps: seq<Step>, i: nat)
    requires i < |steps| && NameEntry(steps[i].name) in steps[i].pythonPaths
    requires forall j | 0 <= j < i :: steps[j].name != steps[i].name
    ensures NameEntry(steps[i].name) in KeptEntries(NamesOf(steps[..i]), steps[i].pythonPaths)
  {
  }

  /** `bootstrapBySequence(clonedDirs, bootstrapSequence)`: the build-and-install
      calls it makes, and the key of the `KeyError` that stops it, if any. */
  method BootstrapBySequence(clonedDirs: map<Name, Path>, steps: seq<Step>) returns (events: seq<Event>, err: Option<Name>)
    ensures var s := RunSteps(clonedDirs, steps);
      events == s.events && err == s.err
  {
    var alreadyInstalled: set<Name> := {};
    events, err := [], None;
    for i := 0 to |steps|
      invariant RunSteps(clonedDirs, steps[..i]) == BootState(events, alreadyInstalled, None)
    {
      assert steps[..i + 1][..i] == steps[..i];
      var name, pythonPaths := steps[i].name, steps[i].pythonPaths;
      if name !in clonedDirs {
        err := Some(name);
        RunStepsStops(clonedDirs, steps, i + 1);
        return;
      }
      var targetDir := clonedDirs[name];
      var paths := BuildPath(clonedDirs, alreadyInstalled, pythonPaths);
      if paths.KeyError? {
        err := Some(paths.key);
        RunStepsStops(clonedDirs, steps, i + 1);
        return;
      }
      events := events + [BuildAndInstall(targetDir, [targetDir] + paths.value)];
      alreadyInstalled := alreadyInstalled + {name};
    }
    assert steps[..|steps|] == steps;
  }
}
