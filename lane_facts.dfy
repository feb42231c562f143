/** Properties of the lane specification: what fetching does to a lane, and
    which names `appendNewDeps` schedules and removes. */
module LaneFacts {
  import opened Common
  import opened Dicts
  import opened Lanes

  // ---------------------------------------------------------------------------
  // Preferences and stages

  /** Cloning without overrides gives back an equal value, and a second clone's
      overrides win over the first one's. */
  lemma CloneOverrides(p: Prefs, a: Patch, b: Patch)
    ensures Patched(p, Patch(None, None, None)) == p
    ensures Patched(Patched(p, a), b) == Patched(p, Patch(
      if b.upgrade.Some? then b.upgrade else a.upgrade,
      if b.resolveDeps.Some? then b.resolveDeps else a.resolveDeps,
      if b.forceReinstall.Some? then b.forceReinstall else a.forceReinstall))
  {
  }

  /** The build lane's patch turns `forceReinstall` off and keeps the rest; the
      package lane's patch changes nothing. */
  lemma LanePatches(p: Prefs)
    ensures Patched(p, PrefsPatch(BuildLane)) == p.(forceReinstall := false)
    ensures Patched(p, PrefsPatch(PkgsLane)) == p
  {
  }

  /** A stage reported by `isAlreadyBeingProcessed` other than `notResolved` is
      one `stageToCollection` is defined for, and that collection holds the
      name. Neither looks at `toFetch` or `ignored`. */
  lemma StageLookupAgrees(l: LaneState, n: Name, toFetch': Dict<Name, int>, ignored': Dict<Name, Pkg>)
    ensures var s := l.IsAlreadyBeingProcessed(n);
      s != NotResolved ==> l.StageToCollection(s).Some? && n in l.StageToCollection(s).value.vals
    ensures l.(toFetch := toFetch', ignored := ignored').IsAlreadyBeingProcessed(n) == l.IsAlreadyBeingProcessed(n)
  {
  }

  // ---------------------------------------------------------------------------
  // Fetching

  /** `clonePackagesRepos`: every requested name is either fetched, into
      `targetDir/name` (plus the spec's sub-directory), or its registry entry is
      ignored; with distinct names, exactly one of the two, and one fetch per
      fetched name. */
  lemma {:induction false} CloneReposFacts(targetDir: Path, names: seq<Name>, env: Env)
    ensures var c := CloneRepos(targetDir, names, env);
      && c.res.Valid()
      && (forall n :: n in c.res.vals <==> n in names && Fetchable(env, env.lookup(n).fetcher))
      && (forall n | n in c.res.vals :: c.res.vals[n] == OutDir(targetDir, n, env.lookup(n).fetcher))
      && (forall p :: p in c.ignored <==> exists n | n in names :: !Fetchable(env, env.lookup(n).fetcher) && env.lookup(n) == p)
      && (Distinct(names) ==> |c.res.keys| + |c.ignored| == |names| && |c.events| == |c.res.keys|)
    decreases |names|
  {
    if names != [] {
      var init := names[..|names| - 1];
      var n := names[|names| - 1];
      CloneReposFacts(targetDir, init, env);
      assert forall x :: x in names <==> x in init || x == n;
      assert Distinct(names) ==> Distinct(init) && n !in init;
    }
  }

  /** `clonePackagesRepos` with distinct names: the `i`-th fetch call is the one
      for the `i`-th fetched name, of the kind, repository, output directory
      `targetDir/name`, depth and ref spec of its registry entry. */
  lemma {:induction false} CloneReposEvents(targetDir: Path, names: seq<Name>, env: Env)
    requires Distinct(names)
    ensures var c := CloneRepos(targetDir, names, env);
      && |c.events| == |c.res.keys|
      && forall i | 0 <= i < |c.events| ::
           && env.lookup(c.res.keys[i]).fetcher.SourceFetcher?
           && c.events[i] == FetchEvent(targetDir, c.res.keys[i], env.lookup(c.res.keys[i]).fetcher)
    decreases |names|
  {
    if names != [] {
      var init := names[..|names| - 1];
      var n := names[|names| - 1];
      assert Distinct(init) && n !in init;
      CloneReposEvents(targetDir, init, env);
      CloneReposFacts(targetDir, init, env);
      var c0 := CloneRepos(targetDir, init, env);
      if Fetchable(env, env.lookup(n).fetcher) {
        assert n !in c0.res.vals;
        assert CloneRepos(targetDir, names, env).res.keys == c0.res.keys + [n];
      }
    }
  }

  /** `fetch`: it fails exactly when a pending name is ignored with a kind other
      than `system`, and then leaves the lane as it was. Otherwise `toFetch` is
      emptied, the fetchable names join `fetched` at their output directory, the
      others' registry names join `ignored`, and everything earlier is kept. */
  lemma FetchLaneFacts(l: LaneState, sourcesDir: Path, env: Env)
    requires l.Valid()
    ensures var f := FetchLane(l, sourcesDir, env);
      && (f.ok <==> forall n | n in l.toFetch.vals && !Fetchable(env, env.lookup(n).fetcher) :: env.lookup(n).fetcher.kind == SYSTEM)
      && (!f.ok ==> f.lane == l)
      && (f.ok ==> f.lane.Valid() && !f.lane.HasWork() && f.lane.resolved == l.resolved)
      && (f.ok ==> forall n :: n in f.lane.fetched.vals <==> n in l.fetched.vals || (n in l.toFetch.vals && Fetchable(env, env.lookup(n).fetcher)))
      && (f.ok ==> forall n | n in l.toFetch.vals && Fetchable(env, env.lookup(n).fetcher) :: f.lane.fetched.vals[n] == OutDir(sourcesDir, n, env.lookup(n).fetcher))
      && (f.ok ==> forall n | n in l.fetched.vals && n !in l.toFetch.vals :: f.lane.fetched.vals[n] == l.fetched.vals[n])
      && (f.ok ==> forall x :: x in f.lane.ignored.vals <==> x in l.ignored.vals || exists n | n in l.toFetch.vals :: !Fetchable(env, env.lookup(n).fetcher) && env.lookup(n).name == x)
      && f.events == CloneRepos(sourcesDir, l.toFetch.keys, env).events
  {
    var c := CloneRepos(sourcesDir, l.toFetch.keys, env);
    CloneReposFacts(sourcesDir, l.toFetch.keys, env);
    var f := FetchLane(l, sourcesDir, env);
    assert AllSystem(c.ignored) <==> forall n | n in l.toFetch.vals && !Fetchable(env, env.lookup(n).fetcher) :: env.lookup(n).fetcher.kind == SYSTEM by {
      if AllSystem(c.ignored) {
        forall n | n in l.toFetch.vals && !Fetchable(env, env.lookup(n).fetcher)
          ensures env.lookup(n).fetcher.kind == SYSTEM
        {
          assert n in l.toFetch.keys;
          assert env.lookup(n) in c.ignored;
        }
      } else {
        var i :| 0 <= i < |c.ignored| && c.ignored[i].fetcher.kind != SYSTEM;
        assert c.ignored[i] in c.ignored;
        var n :| n in l.toFetch.keys && !Fetchable(env, env.lookup(n).fetcher) && env.lookup(n) == c.ignored[i];
        assert n in l.toFetch.vals;
      }
    }
    if f.ok {
      forall x
        ensures x in f.lane.ignored.vals <==> x in l.ignored.vals || exists n | n in l.toFetch.vals :: !Fetchable(env, env.lookup(n).fetcher) && env.lookup(n).name == x
      {
        var byName := IgnoredByName(c.ignored);
        assert f.lane.ignored.vals == l.ignored.vals + byName.vals;
        if x in byName.vals {
          var i :| 0 <= i < |c.ignored| && c.ignored[i].name == x;
          assert c.ignored[i] in c.ignored;
          var n :| n in l.toFetch.keys && !Fetchable(env, env.lookup(n).fetcher) && env.lookup(n) == c.ignored[i];
          assert n in l.toFetch.vals;
        }
        if exists n | n in l.toFetch.vals :: !Fetchable(env, env.lookup(n).fetcher) && env.lookup(n).name == x {
          var n :| n in l.toFetch.vals && !Fetchable(env, env.lookup(n).fetcher) && env.lookup(n).name == x;
          assert n in l.toFetch.keys;
          assert env.lookup(n) in c.ignored;
          var i :| 0 <= i < |c.ignored| && c.ignored[i] == env.lookup(n);
          assert x in byName.vals;
        }
      }
    }
  }

  // ---------------------------------------------------------------------------
  // Scheduling

  /** `appendNewDeps` adds a name to the successor's `toFetch` exactly when some
      requirement of that name is not ignored by this lane, needs
      (re)installation, and this lane has the name neither fetched nor resolved.
      The cross-lane check never prevents it. Values written are 1. */
  lemma {:induction false} AppendSchedules(env: Env, prefs: Prefs, moveToThis: bool, self: LaneState, t: Targets, els: seq<Requirement>, n: Name)
    ensures var r := AppendNewDeps(env, prefs, moveToThis, self, t, els);
      n in r.succToFetch.vals <==>
        n in t.succToFetch.vals ||
        (self.IsAlreadyBeingProcessed(n) == NotResolved &&
         exists i | 0 <= i < |els| :: els[i].name == n && Admitted(env, prefs, self, els[i]))
    ensures var r := AppendNewDeps(env, prefs, moveToThis, self, t, els);
      n in r.succToFetch.vals && (n !in t.succToFetch.vals || r.succToFetch.vals[n] != t.succToFetch.vals[n]) ==> r.succToFetch.vals[n] == 1
    decreases |els|
  {
    if els != [] {
      var init := els[..|els| - 1];
      AppendSchedules(env, prefs, moveToThis, self, t, init, n);
      assert forall i | 0 <= i < |init| :: init[i] == els[i];
    }
  }

  /** `appendNewDeps` only ever removes entries from the other lane's `fetched`
      and `resolved`, never adds, never changes its `toFetch` or `ignored`;
      without `moveToThis` it leaves the other lane alone. Validity is kept. */
  lemma {:induction false} AppendOtherFrame(env: Env, prefs: Prefs, moveToThis: bool, self: LaneState, t: Targets, els: seq<Requirement>)
    ensures var r := AppendNewDeps(env, prefs, moveToThis, self, t, els);
      && r.other.toFetch == t.other.toFetch
      && r.other.ignored == t.other.ignored
      && (forall k | k in r.other.fetched.vals :: k in t.other.fetched.vals && r.other.fetched.vals[k] == t.other.fetched.vals[k])
      && (forall k | k in r.other.resolved.vals :: k in t.other.resolved.vals && r.other.resolved.vals[k] == t.other.resolved.vals[k])
      && (!moveToThis ==> r.other == t.other)
      && (t.other.Valid() ==> r.other.Valid())
      && (t.succToFetch.Valid() ==> r.succToFetch.Valid())
    decreases |els|
  {
    if els != [] {
      AppendOtherFrame(env, prefs, moveToThis, self, t, els[..|els| - 1]);
    }
  }

  /** With `moveToThis`, a name leaves the other lane's `fetched` as soon as one
      admitted requirement of that name is seen, and leaves its `resolved` with
      the next one (the first one when it was not fetched there): each admitted
      occurrence deletes the name from the collection of the stage it is at. */
  lemma {:induction false} AppendPromotes(env: Env, prefs: Prefs, self: LaneState, t: Targets, els: seq<Requirement>, n: Name)
    ensures var r := AppendNewDeps(env, prefs, true, self, t, els);
      var c := AdmittedCount(env, prefs, self, els, n);
      && (n in r.other.fetched.vals <==> n in t.other.fetched.vals && c == 0)
      && (n in r.other.resolved.vals <==> n in t.other.resolved.vals && c < (if n in t.other.fetched.vals then 2 else 1))
    decreases |els|
  {
    if els != [] {
      AppendPromotes(env, prefs, self, t, els[..|els| - 1], n);
    }
  }

  /** A requirement carrying an environment marker never causes scheduling. */
  lemma MarkerNeverScheduled(env: Env, prefs: Prefs, moveToThis: bool, self: LaneState, t: Targets, els: seq<Requirement>, n: Name)
    requires forall i | 0 <= i < |els| && els[i].name == n :: els[i].marker.Some?
    ensures n in AppendNewDeps(env, prefs, moveToThis, self, t, els).succToFetch.vals <==> n in t.succToFetch.vals
  {
    AppendSchedules(env, prefs, moveToThis, self, t, els, n);
  }

  /** Without `upgrade` and `forceReinstall`, a requirement whose installed
      version satisfies its specifier is never scheduled. */
  lemma SkipOnSatisfied(env: Env, prefs: Prefs, moveToThis: bool, self: LaneState, t: Targets, els: seq<Requirement>, n: Name)
    requires !prefs.upgrade && !prefs.forceReinstall
    requires env.installedVersion(n).Some?
    requires forall i | 0 <= i < |els| && els[i].name == n :: env.accepts(els[i].specifier, env.installedVersion(n).value)
    ensures n in AppendNewDeps(env, prefs, moveToThis, self, t, els).succToFetch.vals <==> n in t.succToFetch.vals
  {
    AppendSchedules(env, prefs, moveToThis, self, t, els, n);
  }

  /** With `forceReinstall` (and no `upgrade`), a marker-free requirement that
      this lane neither ignores nor already has is scheduled, whatever is
      installed. */
  lemma ForceOverridesSkip(env: Env, prefs: Prefs, moveToThis: bool, self: LaneState, t: Targets, els: seq<Requirement>, i: nat)
    requires prefs.forceReinstall
    requires i < |els| && els[i].marker.None?
    requires els[i].name !in self.ignored.vals
    requires self.IsAlreadyBeingProcessed(els[i].name) == NotResolved
    ensures els[i].name in AppendNewDeps(env, prefs, moveToThis, self, t, els).succToFetch.vals
  {
    AppendSchedules(env, prefs, moveToThis, self, t, els, els[i].name);
  }

  /** The build lane's preferences have `forceReinstall` patched off, so a build
      dependency whose installed version satisfies it is skipped even when the
      caller asked for forced reinstallation. */
  lemma BuildDepSatisfiedSkipped(env: Env, prefs: Prefs, moveToThis: bool, self: LaneState, t: Targets, els: seq<Requirement>, n: Name)
    requires !prefs.upgrade
    requires env.installedVersion(n).Some?
    requires forall i | 0 <= i < |els| && els[i].name == n :: env.accepts(els[i].specifier, env.installedVersion(n).value)
    ensures n in AppendNewDeps(env, Patched(prefs, PrefsPatch(BuildLane)), moveToThis, self, t, els).succToFetch.vals <==> n in t.succToFetch.vals
  {
    SkipOnSatisfied(env, Patched(prefs, PrefsPatch(BuildLane)), moveToThis, self, t, els, n);
  }
}
