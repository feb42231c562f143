/** Properties of the round specification: what `_resolveDeps` schedules,
    resolves and carries forward, when it fails, what a round call leaves
    behind, and what the driver loop and the install phase do. */
module RoundFacts {
  import opened Common
  import opened Dicts
  import opened Lanes
  import opened LaneFacts
  import opened Rounds

  ghost predicate SubMap<K, V>(a: map<K, V>, b: map<K, V>) {
    forall k | k in a :: k in b && a[k] == b[k]
  }

  /** The names of the entries. */
  function ItemKeys(items: seq<(Name, Path)>): (ks: set<Name>)
    ensures forall k :: k in ks <==> exists i | 0 <= i < |items| :: items[i].0 == k
    decreases |items|
  {
    if items == [] then {}
    else
      var init := items[..|items| - 1];
      assert forall i | 0 <= i < |init| :: init[i] == items[i];
      ItemKeys(init) + {items[|items| - 1].0}
  }

  ghost predicate AllValid(s: ResState) {
    s.l.Valid() && s.o.Valid() && s.sb.Valid() && s.sp.Valid()
  }

  /** What visiting entries with keys `ks` of lane `lid` may change, from `s` to `r`:
      the visited lane only gains `resolved` entries for those keys, the other
      lane only loses entries (and only when `moveToThis`), the successor's build
      lane only gets `toFetch` entries, the successor's package lane gets
      `toFetch` entries and `resolved` entries of the visited lane. */
  ghost predicate Frame(lid: LaneId, s: ResState, r: ResState, ks: set<Name>) {
    && r.l.fetched == s.l.fetched && r.l.toFetch == s.l.toFetch && r.l.ignored == s.l.ignored
    && s.l.resolved.vals.Keys <= r.l.resolved.vals.Keys <= s.l.resolved.vals.Keys + ks
    && r.sb == s.sb.(toFetch := r.sb.toFetch)
    && r.sp == s.sp.(toFetch := r.sp.toFetch, resolved := r.sp.resolved)
    && s.sp.resolved.vals.Keys <= r.sp.resolved.vals.Keys <= s.sp.resolved.vals.Keys + r.l.resolved.vals.Keys
    && r.o.toFetch == s.o.toFetch && r.o.ignored == s.o.ignored
    && SubMap(r.o.fetched.vals, s.o.fetched.vals) && SubMap(r.o.resolved.vals, s.o.resolved.vals)
    && (!MoveToThis(lid) ==> r.o == s.o)
    && (AllValid(s) ==> AllValid(r))
  }

  lemma ResolveOneFrame(env: Env, prefs: Prefs, lid: LaneId, s: ResState, item: (Name, Path))
    ensures Frame(lid, s, ResolveOne(env, prefs, lid, s, item), {item.0})
  {
    var (n, d) := item;
    if s.err.None? && n !in s.l.ignored.vals {
      ProcessFrame(env, prefs, lid, s, n, d);
    }
  }

  lemma ProcessFrame(env: Env, prefs: Prefs, lid: LaneId, s: ResState, n: Name, d: Path)
    ensures Frame(lid, s, Process(env, prefs, lid, s, n, d), {n})
  {
    var md := env.extractMetadata(d);
    var p1 := Patched(prefs, PrefsPatch(BuildLane));
    var t0 := Targets(s.o, s.sb.toFetch);
    var d1 := DepsFor(env, prefs, BuildLane, md);
    AppendOtherFrame(env, p1, MoveToThis(lid), s.l, t0, d1);
    var t1 := AppendNewDeps(env, p1, MoveToThis(lid), s.l, t0, d1);
    var l1 := s.l.(resolved := s.l.resolved.Put(n, d));
    var p2 := Patched(prefs, PrefsPatch(PkgsLane));
    var t1' := Targets(t1.other, s.sp.toFetch);
    var d2 := DepsFor(env, prefs, PkgsLane, md);
    AppendOtherFrame(env, p2, MoveToThis(lid), l1, t1', d2);
  }

  lemma FrameTrans(lid: LaneId, s: ResState, m: ResState, r: ResState, ks1: set<Name>, ks2: set<Name>)
    requires Frame(lid, s, m, ks1) && Frame(lid, m, r, ks2)
    ensures Frame(lid, s, r, ks1 + ks2)
  {
  }

  lemma {:induction false} ResolveLaneFrame(env: Env, prefs: Prefs, lid: LaneId, s: ResState, items: seq<(Name, Path)>)
    ensures Frame(lid, s, ResolveLane(env, prefs, lid, s, items), ItemKeys(items))
    decreases |items|
  {
    if items != [] {
      var init := items[..|items| - 1];
      var last := items[|items| - 1];
      ResolveLaneFrame(env, prefs, lid, s, init);
      var m := ResolveLane(env, prefs, lid, s, init);
      ResolveOneFrame(env, prefs, lid, m, last);
      FrameTrans(lid, s, m, ResolveLane(env, prefs, lid, s, items), ItemKeys(init), {last.0});
    }
  }

  /** The visited lane's `fetched`, `toFetch` and `ignored` are left as they are. */
  lemma {:induction false} ResolveLaneKeeps(env: Env, prefs: Prefs, lid: LaneId, s: ResState, items: seq<(Name, Path)>)
    ensures var r := ResolveLane(env, prefs, lid, s, items);
      r.l.fetched == s.l.fetched && r.l.toFetch == s.l.toFetch && r.l.ignored == s.l.ignored
    decreases |items|
  {
    if items != [] {
      ResolveLaneKeeps(env, prefs, lid, s, items[..|items| - 1]);
    }
  }

  /** The visited lane's `resolved` only gains names of visited entries. */
  lemma {:induction false} ResolveLaneResolvedKeys(env: Env, prefs: Prefs, lid: LaneId, s: ResState, items: seq<(Name, Path)>)
    ensures var r := ResolveLane(env, prefs, lid, s, items);
      s.l.resolved.vals.Keys <= r.l.resolved.vals.Keys <= s.l.resolved.vals.Keys + ItemKeys(items)
    decreases |items|
  {
    if items != [] {
      ResolveLaneResolvedKeys(env, prefs, lid, s, items[..|items| - 1]);
    }
  }

  /** Once an error is recorded, the remaining entries are not visited. */
  lemma {:induction false} ResolveLaneErrSticky(env: Env, prefs: Prefs, lid: LaneId, s: ResState, items: seq<(Name, Path)>)
    requires s.err.Some?
    ensures ResolveLane(env, prefs, lid, s, items) == s
    decreases |items|
  {
    if items != [] {
      ResolveLaneErrSticky(env, prefs, lid, s, items[..|items| - 1]);
    }
  }

  /** Once visiting a prefix of the entries records an error, visiting all of them ends in that same state. */
  lemma {:induction false} ResolveLaneStops(env: Env, prefs: Prefs, lid: LaneId, s: ResState, items: seq<(Name, Path)>, k: nat)
    requires k <= |items| && ResolveLane(env, prefs, lid, s, items[..k]).err.Some?
    ensures ResolveLane(env, prefs, lid, s, items) == ResolveLane(env, prefs, lid, s, items[..k])
    decreases |items| - k
  {
    if k < |items| {
      assert items[..k + 1][..k] == items[..k];
      ResolveLaneStops(env, prefs, lid, s, items, k + 1);
    } else {
      assert items[..k] == items;
    }
  }

  /** Visiting a lane fails exactly when `successorSubRound` is still unbound and
      the first entry is ignored; then nothing has changed. Otherwise
      `successorSubRound` ends up bound when it was, or when some entry was not
      ignored. */
  lemma {:induction false} ResolveLaneError(env: Env, prefs: Prefs, lid: LaneId, s: ResState, items: seq<(Name, Path)>)
    requires s.err.None?
    ensures var r := ResolveLane(env, prefs, lid, s, items);
      && (r.err.Some? <==> !s.bound && |items| > 0 && items[0].0 in s.l.ignored.vals)
      && (r.err.Some? ==> r == s.(err := Some(UnboundSuccessor)))
      && (r.err.None? ==> (r.bound <==> s.bound || exists i | 0 <= i < |items| :: items[i].0 !in s.l.ignored.vals))
    decreases |items|
  {
    if items != [] {
      var init := items[..|items| - 1];
      ResolveLaneError(env, prefs, lid, s, init);
      ResolveLaneFrame(env, prefs, lid, s, init);
      assert forall i | 0 <= i < |init| :: init[i] == items[i];
    }
  }

  /** The directories of the entries visited and not ignored. */
  function ProcessedDirs(items: seq<(Name, Path)>, ignored: map<Name, Pkg>): map<Name, Path>
    decreases |items|
  {
    if items == [] then map[]
    else
      var m := ProcessedDirs(items[..|items| - 1], ignored);
      var (n, d) := items[|items| - 1];
      if n !in ignored then m[n := d] else m
  }

  /** One metadata extraction per entry visited and not ignored, in order. */
  function ExtractEvents(items: seq<(Name, Path)>, ignored: map<Name, Pkg>): seq<Event>
    decreases |items|
  {
    if items == [] then []
    else
      var e := ExtractEvents(items[..|items| - 1], ignored);
      var (n, d) := items[|items| - 1];
      if n !in ignored then e + [ExtractMetadata(d)] else e
  }

  lemma MergeThenPut<K, V>(a: map<K, V>, b: map<K, V>, k: K, v: V)
    ensures (a + b)[k := v] == a + b[k := v]
  {
  }

  lemma ResolveOneResolved(env: Env, prefs: Prefs, lid: LaneId, s: ResState, item: (Name, Path))
    requires s.err.None?
    ensures var r := ResolveOne(env, prefs, lid, s, item);
      r.err.None? ==>
        && r.l.resolved.vals == (if item.0 !in s.l.ignored.vals then s.l.resolved.vals[item.0 := item.1] else s.l.resolved.vals)
        && r.events == s.events + (if item.0 !in s.l.ignored.vals then [ExtractMetadata(item.1)] else [])
  {
  }

  /** Without error, every visited entry not in the lane's `ignored` has its
      metadata extracted, once and in order, and is recorded in the lane's
      `resolved` with its directory; nothing else is recorded. */
  lemma {:induction false} ResolveLaneResolved(env: Env, prefs: Prefs, lid: LaneId, s: ResState, items: seq<(Name, Path)>)
    requires s.err.None?
    ensures var r := ResolveLane(env, prefs, lid, s, items);
      r.err.None? ==>
        && r.l.resolved.vals == s.l.resolved.vals + ProcessedDirs(items, s.l.ignored.vals)
        && r.events == s.events + ExtractEvents(items, s.l.ignored.vals)
    decreases |items|
  {
    if items != [] {
      var init := items[..|items| - 1];
      var last := items[|items| - 1];
      ResolveLaneResolved(env, prefs, lid, s, init);
      ResolveLaneKeeps(env, prefs, lid, s, init);
      var m := ResolveLane(env, prefs, lid, s, init);
      assert ResolveLane(env, prefs, lid, s, items) == ResolveOne(env, prefs, lid, m, last);
      if m.err.Some? {
        ResolveLaneErrSticky(env, prefs, lid, m, [last]);
        assert ResolveLane(env, prefs, lid, m, [last]) == ResolveOne(env, prefs, lid, m, last);
      } else {
        ResolveOneResolved(env, prefs, lid, m, last);
        if last.0 !in s.l.ignored.vals {
          MergeThenPut(s.l.resolved.vals, ProcessedDirs(init, s.l.ignored.vals), last.0, last.1);
        }
      }
    }
  }

  lemma ResolveOneCarries(env: Env, prefs: Prefs, lid: LaneId, s: ResState, item: (Name, Path))
    requires s.err.None?
    ensures var r := ResolveOne(env, prefs, lid, s, item);
      r.err.None? ==> r.sp.resolved == s.sp.resolved.Update(r.l.resolved)
  {
  }

  /** Without error, the successor's package lane ends up holding the visited
      lane's final `resolved` on top of what it held, when the lane had at
      least one entry; a lane without entries carries nothing forward. The
      successor's build lane's `resolved` is never written. */
  lemma {:induction false} ResolveLaneCarries(env: Env, prefs: Prefs, lid: LaneId, s: ResState, items: seq<(Name, Path)>)
    requires s.err.None? && AllValid(s)
    ensures var r := ResolveLane(env, prefs, lid, s, items);
      && r.sb.resolved == s.sb.resolved
      && (r.err.None? ==> r.sp.resolved.vals == if |items| == 0 then s.sp.resolved.vals else s.sp.resolved.vals + r.l.resolved.vals)
    decreases |items|
  {
    ResolveLaneFrame(env, prefs, lid, s, items);
    if items != [] {
      var init := items[..|items| - 1];
      var last := items[|items| - 1];
      ResolveLaneCarries(env, prefs, lid, s, init);
      ResolveLaneFrame(env, prefs, lid, s, init);
      var m := ResolveLane(env, prefs, lid, s, init);
      var r := ResolveLane(env, prefs, lid, s, items);
      assert r == ResolveOne(env, prefs, lid, m, last);
      if m.err.Some? {
        ResolveLaneErrSticky(env, prefs, lid, m, [last]);
        assert ResolveLane(env, prefs, lid, m, [last]) == ResolveOne(env, prefs, lid, m, last);
      } else if r.err.None? {
        ResolveOneCarries(env, prefs, lid, m, last);
        ResolveOneFrame(env, prefs, lid, m, last);
        assert r.sp.resolved.vals == m.sp.resolved.vals + r.l.resolved.vals;
        if |init| > 0 {
          MergeAbsorbed(s.sp.resolved.vals, m.l.resolved.vals, r.l.resolved.vals);
        }
      }
    }
  }
  // ---------------------------------------------------------------------------
  // What the visit of a lane schedules into the successor round

  /** Entry `item` of lane `self` schedules `x` into the successor's `target`
      lane: the entry is not ignored, `self` has `x` neither fetched nor
      resolved, and some requirement named `x` of the `target` lane's
      dependency list passes this lane's `ignored` and the reinstall check
      under the `target` lane's preferences. */
  ghost predicate Schedules(env: Env, prefs: Prefs, target: LaneId, self: LaneState, item: (Name, Path), x: Name) {
    var deps := DepsFor(env, prefs, target, env.extractMetadata(item.1));
    && item.0 !in self.ignored.vals
    && self.IsAlreadyBeingProcessed(x) == NotResolved
    && exists j | 0 <= j < |deps| :: deps[j].name == x && Admitted(env, Patched(prefs, PrefsPatch(target)), self, deps[j])
  }

  /** `Schedules` depends on `resolved` only outside `fetched`. */
  lemma SchedulesAgree(env: Env, prefs: Prefs, target: LaneId, a: LaneState, b: LaneState, item: (Name, Path), x: Name)
    requires a.fetched == b.fetched && a.ignored == b.ignored
    requires x !in a.fetched.vals ==> (x in a.resolved.vals <==> x in b.resolved.vals)
    ensures Schedules(env, prefs, target, a, item, x) == Schedules(env, prefs, target, b, item, x)
  {
    var deps := DepsFor(env, prefs, target, env.extractMetadata(item.1));
    var p := Patched(prefs, PrefsPatch(target));
    assert forall j | 0 <= j < |deps| :: Admitted(env, p, a, deps[j]) == Admitted(env, p, b, deps[j]);
  }

  lemma ProcessSchedules(env: Env, prefs: Prefs, lid: LaneId, s: ResState, n: Name, d: Path, x: Name)
    requires n !in s.l.ignored.vals && n in s.l.fetched.vals
    ensures var r := Process(env, prefs, lid, s, n, d);
      && (x in r.sb.toFetch.vals <==> x in s.sb.toFetch.vals || Schedules(env, prefs, BuildLane, s.l, (n, d), x))
      && (x in r.sp.toFetch.vals <==> x in s.sp.toFetch.vals || Schedules(env, prefs, PkgsLane, s.l, (n, d), x))
  {
    var md := env.extractMetadata(d);
    var p1 := Patched(prefs, PrefsPatch(BuildLane));
    var t0 := Targets(s.o, s.sb.toFetch);
    var d1 := DepsFor(env, prefs, BuildLane, md);
    AppendSchedules(env, p1, MoveToThis(lid), s.l, t0, d1, x);
    var t1 := AppendNewDeps(env, p1, MoveToThis(lid), s.l, t0, d1);
    var l1 := s.l.(resolved := s.l.resolved.Put(n, d));
    var p2 := Patched(prefs, PrefsPatch(PkgsLane));
    var t1' := Targets(t1.other, s.sp.toFetch);
    var d2 := DepsFor(env, prefs, PkgsLane, md);
    AppendSchedules(env, p2, MoveToThis(lid), l1, t1', d2, x);
    SchedulesAgree(env, prefs, PkgsLane, l1, s.l, (n, d), x);
  }

  lemma ExistsSplit(env: Env, prefs: Prefs, target: LaneId, l: LaneState, items: seq<(Name, Path)>, x: Name)
    requires |items| > 0
    ensures (exists i | 0 <= i < |items| :: Schedules(env, prefs, target, l, items[i], x)) <==>
      (exists i | 0 <= i < |items| - 1 :: Schedules(env, prefs, target, l, items[i], x)) ||
      Schedules(env, prefs, target, l, items[|items| - 1], x)
  {
  }

  lemma ResolveOneSchedules(env: Env, prefs: Prefs, lid: LaneId, s: ResState, item: (Name, Path), x: Name)
    requires s.err.None? && item.0 in s.l.fetched.vals
    ensures var r := ResolveOne(env, prefs, lid, s, item);
      && (x in r.sb.toFetch.vals <==> x in s.sb.toFetch.vals || Schedules(env, prefs, BuildLane, s.l, item, x))
      && (x in r.sp.toFetch.vals <==> x in s.sp.toFetch.vals || Schedules(env, prefs, PkgsLane, s.l, item, x))
  {
    if item.0 !in s.l.ignored.vals {
      ProcessSchedules(env, prefs, lid, s, item.0, item.1, x);
    }
  }

  /** Without error, a name is scheduled into a lane of the successor round
      exactly when it was already there or some entry of the visited lane
      schedules it (`Schedules`). */
  lemma {:induction false} ResolveLaneSchedules(env: Env, prefs: Prefs, lid: LaneId, s: ResState, items: seq<(Name, Path)>, x: Name)
    requires s.err.None?
    requires forall i | 0 <= i < |items| :: items[i].0 in s.l.fetched.vals
    ensures var r := ResolveLane(env, prefs, lid, s, items);
      r.err.None? ==>
        && (x in r.sb.toFetch.vals <==> x in s.sb.toFetch.vals || exists i | 0 <= i < |items| :: Schedules(env, prefs, BuildLane, s.l, items[i], x))
        && (x in r.sp.toFetch.vals <==> x in s.sp.toFetch.vals || exists i | 0 <= i < |items| :: Schedules(env, prefs, PkgsLane, s.l, items[i], x))
    decreases |items|
  {
    if items != [] {
      var init := items[..|items| - 1];
      var last := items[|items| - 1];
      assert forall i | 0 <= i < |init| :: init[i] == items[i];
      ResolveLaneSchedules(env, prefs, lid, s, init, x);
      ResolveLaneKeeps(env, prefs, lid, s, init);
      ResolveLaneResolvedKeys(env, prefs, lid, s, init);
      var m := ResolveLane(env, prefs, lid, s, init);
      assert ResolveLane(env, prefs, lid, s, items) == ResolveOne(env, prefs, lid, m, last);
      if m.err.Some? {
        ResolveLaneErrSticky(env, prefs, lid, m, [last]);
        assert ResolveLane(env, prefs, lid, m, [last]) == ResolveOne(env, prefs, lid, m, last);
      } else {
        ResolveOneSchedules(env, prefs, lid, m, last, x);
        SchedulesAgree(env, prefs, BuildLane, m.l, s.l, last, x);
        SchedulesAgree(env, prefs, PkgsLane, m.l, s.l, last, x);
        ExistsSplit(env, prefs, BuildLane, s.l, items, x);
        ExistsSplit(env, prefs, PkgsLane, s.l, items, x);
      }
    }
  }

  // ---------------------------------------------------------------------------
  // `_resolveDeps` over both lanes

  /** The entries of a dictionary are its keys, each with its value. */
  lemma ItemsOfValid(d: Dict<Name, Path>)
    requires d.Valid()
    ensures var items := ItemsOf(d.keys, d.vals);
      && |items| == |d.keys|
      && (forall i | 0 <= i < |items| :: items[i] == (d.keys[i], d.vals[d.keys[i]]) && items[i].0 in d.vals)
      && ItemKeys(items) == d.vals.Keys
  {
    var items := ItemsOf(d.keys, d.vals);
    assert forall k | k in d.vals :: exists i | 0 <= i < |items| :: items[i].0 == k by {
      forall k | k in d.vals
        ensures exists i | 0 <= i < |items| :: items[i].0 == k
      {
        var i :| 0 <= i < |d.keys| && d.keys[i] == k;
        assert items[i].0 == k;
      }
    }
  }

  /** The state `_resolveDeps` starts the build lane with. */
  function StartState(cur: RoundState, next: RoundState): ResState {
    ResState(cur.build, cur.pkgs, next.build, next.pkgs, false, None, [])
  }

  /** The state after the build lane, as the package lane sees it. */
  function Swapped(s1: ResState): ResState {
    ResState(s1.o, s1.l, s1.sb, s1.sp, s1.bound, s1.err, s1.events)
  }

  /** `_resolveDeps` fails (line 290) exactly when the first fetched entry it
      visits is ignored: the build lane's first one, or the package lane's
      first one when the build lane fetched nothing. It fails before changing
      anything. */
  lemma ResolveDepsError(env: Env, prefs: Prefs, cur: RoundState, next: RoundState)
    requires cur.Valid()
    ensures var r := ResolveDeps(env, prefs, cur, next);
      var b := cur.build.fetched.keys;
      var p := cur.pkgs.fetched.keys;
      && (r.err.Some? <==>
            (|b| > 0 && b[0] in cur.build.ignored.vals) || (|b| == 0 && |p| > 0 && p[0] in cur.pkgs.ignored.vals))
      && (r.err.Some? ==> r.err == Some(UnboundSuccessor) && r.cur == cur && r.next == next && r.events == [])
  {
    var s := StartState(cur, next);
    var items1 := ItemsOf(cur.build.fetched.keys, cur.build.fetched.vals);
    ItemsOfValid(cur.build.fetched);
    ResolveLaneError(env, prefs, BuildLane, s, items1);
    var s1 := ResolveLane(env, prefs, BuildLane, s, items1);
    var s2' := Swapped(s1);
    var items2 := ItemsOf(s2'.l.fetched.keys, s2'.l.fetched.vals);
    if s1.err.Some? {
      ResolveLaneErrSticky(env, prefs, PkgsLane, s2', items2);
    } else {
      ResolveLaneError(env, prefs, PkgsLane, s2', items2);
      if |items1| == 0 {
        ItemsOfValid(cur.pkgs.fetched);
      } else {
        assert s1.bound by {
          assert items1[0].0 !in s.l.ignored.vals;
        }
      }
    }
  }

  /** Lanes whose `resolved` names all have an install directory. */
  ghost predicate Covered(r: RoundState, installDirs: Dict<Name, Path>) {
    && r.build.resolved.vals.Keys <= installDirs.vals.Keys
    && r.pkgs.resolved.vals.Keys <= installDirs.vals.Keys
  }

  /** Without error, `_resolveDeps` leaves both lanes' `toFetch` and `ignored`
      and the build lane's `fetched` as they were; the package lane only loses
      entries (promotions to the build lane). The build lane's `resolved` gains
      its fetched entries that are not ignored. The successor's build lane
      only receives `toFetch` entries; its package lane's `resolved` receives
      only names resolved in this round. */
  lemma ResolveDepsFacts(env: Env, prefs: Prefs, cur: RoundState, next: RoundState)
    requires cur.Valid() && next.Valid()
    ensures var r := ResolveDeps(env, prefs, cur, next);
      r.err.None? ==>
        && r.cur.Valid() && r.next.Valid()
        && r.cur.build.fetched == cur.build.fetched
        && r.cur.build.toFetch == cur.build.toFetch && r.cur.pkgs.toFetch == cur.pkgs.toFetch
        && r.cur.build.ignored == cur.build.ignored && r.cur.pkgs.ignored == cur.pkgs.ignored
        && SubMap(r.cur.pkgs.fetched.vals, cur.pkgs.fetched.vals)
        && r.cur.build.resolved.vals == cur.build.resolved.vals + ProcessedDirs(ItemsOf(cur.build.fetched.keys, cur.build.fetched.vals), cur.build.ignored.vals)
        && r.cur.pkgs.resolved.vals.Keys <= cur.pkgs.resolved.vals.Keys + r.cur.pkgs.fetched.vals.Keys
        && r.next.build == next.build.(toFetch := r.next.build.toFetch)
        && r.next.pkgs == next.pkgs.(toFetch := r.next.pkgs.toFetch, resolved := r.next.pkgs.resolved)
        && r.next.pkgs.resolved.vals.Keys <= next.pkgs.resolved.vals.Keys + r.cur.build.resolved.vals.Keys + r.cur.pkgs.resolved.vals.Keys
  {
    var s := StartState(cur, next);
    var items1 := ItemsOf(cur.build.fetched.keys, cur.build.fetched.vals);
    ItemsOfValid(cur.build.fetched);
    ResolveLaneFrame(env, prefs, BuildLane, s, items1);
    ResolveLaneResolved(env, prefs, BuildLane, s, items1);
    var s1 := ResolveLane(env, prefs, BuildLane, s, items1);
    var s2' := Swapped(s1);
    var items2 := ItemsOf(s2'.l.fetched.keys, s2'.l.fetched.vals);
    if s1.err.Some? {
      ResolveLaneErrSticky(env, prefs, PkgsLane, s2', items2);
    } else {
      ItemsOfValid(s2'.l.fetched);
      ResolveLaneFrame(env, prefs, PkgsLane, s2', items2);
    }
  }

  // ---------------------------------------------------------------------------
  // A round call

  /** Visiting a lane records no error other than line 290's. */
  lemma {:induction false} ResolveLaneErrKind(env: Env, prefs: Prefs, lid: LaneId, s: ResState, items: seq<(Name, Path)>)
    ensures var r := ResolveLane(env, prefs, lid, s, items);
      r.err == s.err || r.err == Some(UnboundSuccessor)
    decreases |items|
  {
    if items != [] {
      ResolveLaneErrKind(env, prefs, lid, s, items[..|items| - 1]);
    }
  }

  /** `_resolveDeps` records no error other than line 290's, and without error
      the fetched collections of the called round stay well formed. */
  lemma ResolveDepsErrKind(env: Env, prefs: Prefs, cur: RoundState, next: RoundState)
    ensures var r := ResolveDeps(env, prefs, cur, next);
      r.err.None? || r.err == Some(UnboundSuccessor)
  {
    var s := StartState(cur, next);
    var items1 := ItemsOf(cur.build.fetched.keys, cur.build.fetched.vals);
    ResolveLaneErrKind(env, prefs, BuildLane, s, items1);
    var s2' := Swapped(ResolveLane(env, prefs, BuildLane, s, items1));
    ResolveLaneErrKind(env, prefs, PkgsLane, s2', ItemsOf(s2'.l.fetched.keys, s2'.l.fetched.vals));
  }

  /** A round call fails only by a fetcher that raises or by line 290, and
      then leaves `installDirs` as it was. */
  lemma RoundCallErrors(env: Env, prefs: Prefs, cur: RoundState, installDirs: Dict<Name, Path>, sourcesDir: Path)
    ensures var r := RoundCall(env, prefs, cur, installDirs, sourcesDir);
      && (r.err.Some? ==> r.err == Some(FetcherNotImplemented) || r.err == Some(UnboundSuccessor))
      && (r.err.Some? ==> r.installDirs == installDirs)
  {
    var fb := FetchLane(cur.build, sourcesDir, env);
    var fp := FetchLane(cur.pkgs, sourcesDir, env);
    ResolveDepsErrKind(env, prefs, RoundState(fb.lane, fp.lane), NewRound());
  }

  /** Without error, `installDirs` holds what it held, overridden by the called
      round's build lane's and then package lane's `fetched`; it only gains keys. */
  lemma RoundCallInstallDirs(env: Env, prefs: Prefs, cur: RoundState, installDirs: Dict<Name, Path>, sourcesDir: Path)
    requires cur.Valid() && installDirs.Valid()
    ensures var r := RoundCall(env, prefs, cur, installDirs, sourcesDir);
      && (r.err.None? ==> r.installDirs.vals == installDirs.vals + r.cur.build.fetched.vals + r.cur.pkgs.fetched.vals)
      && r.installDirs.Valid() && installDirs.vals.Keys <= r.installDirs.vals.Keys
  {
    RoundCallCur(env, prefs, cur, installDirs, sourcesDir);
  }

  /** Without error, both lanes of the called round have nothing left to fetch. */
  lemma RoundCallDone(env: Env, prefs: Prefs, cur: RoundState, installDirs: Dict<Name, Path>, sourcesDir: Path)
    requires cur.Valid()
    ensures var r := RoundCall(env, prefs, cur, installDirs, sourcesDir);
      r.err.None? ==> !r.cur.HasWork()
  {
    var next := NewRound();
    FetchLaneFacts(cur.build, sourcesDir, env);
    var fb := FetchLane(cur.build, sourcesDir, env);
    if fb.ok {
      FetchLaneFacts(cur.pkgs, sourcesDir, env);
      var fp := FetchLane(cur.pkgs, sourcesDir, env);
      if fp.ok {
        ResolveDepsFacts(env, prefs, RoundState(fb.lane, fp.lane), next);
      }
    }
  }

  /** Without error, both lanes of the called round stay well formed. */
  lemma RoundCallCur(env: Env, prefs: Prefs, cur: RoundState, installDirs: Dict<Name, Path>, sourcesDir: Path)
    requires cur.Valid()
    ensures var r := RoundCall(env, prefs, cur, installDirs, sourcesDir);
      r.err.None? ==> r.cur.Valid()
  {
    var next := NewRound();
    FetchLaneFacts(cur.build, sourcesDir, env);
    var fb := FetchLane(cur.build, sourcesDir, env);
    if fb.ok {
      FetchLaneFacts(cur.pkgs, sourcesDir, env);
      var fp := FetchLane(cur.pkgs, sourcesDir, env);
      if fp.ok {
        ResolveDepsFacts(env, prefs, RoundState(fb.lane, fp.lane), next);
      }
    }
  }

  /** Without error, the new round's lanes are well formed and hold nothing
      fetched, resolved or ignored except the package lane's `resolved`,
      carried over. */
  lemma RoundCallNext(env: Env, prefs: Prefs, cur: RoundState, installDirs: Dict<Name, Path>, sourcesDir: Path)
    requires cur.Valid()
    ensures var r := RoundCall(env, prefs, cur, installDirs, sourcesDir);
      r.err.None? ==>
        && r.next.Valid()
        && r.next.build.fetched == Empty() && r.next.build.resolved == Empty() && r.next.build.ignored == Empty()
        && r.next.pkgs.fetched == Empty() && r.next.pkgs.ignored == Empty()
  {
    var next := NewRound();
    FetchLaneFacts(cur.build, sourcesDir, env);
    var fb := FetchLane(cur.build, sourcesDir, env);
    if fb.ok {
      FetchLaneFacts(cur.pkgs, sourcesDir, env);
      var fp := FetchLane(cur.pkgs, sourcesDir, env);
      if fp.ok {
        ResolveDepsFacts(env, prefs, RoundState(fb.lane, fp.lane), next);
      }
    }
  }

  /** A successful round call keeps every resolved name covered by an install
      directory, in the called round and in the new one. */
  lemma RoundCallCovered(env: Env, prefs: Prefs, cur: RoundState, installDirs: Dict<Name, Path>, sourcesDir: Path)
    requires cur.Valid() && installDirs.Valid() && Covered(cur, installDirs)
    ensures var r := RoundCall(env, prefs, cur, installDirs, sourcesDir);
      r.err.None? ==> Covered(r.cur, r.installDirs) && Covered(r.next, r.installDirs)
  {
    var next := NewRound();
    RoundCallInstallDirs(env, prefs, cur, installDirs, sourcesDir);
    FetchLaneFacts(cur.build, sourcesDir, env);
    var fb := FetchLane(cur.build, sourcesDir, env);
    if fb.ok {
      FetchLaneFacts(cur.pkgs, sourcesDir, env);
      var fp := FetchLane(cur.pkgs, sourcesDir, env);
      if fp.ok {
        var c := RoundState(fb.lane, fp.lane);
        ResolveDepsFacts(env, prefs, c, next);
        var rd := ResolveDeps(env, prefs, c, next);
        if rd.err.None? {
          ItemsOfValid(c.build.fetched);
          ProcessedDirsKeys(ItemsOf(c.build.fetched.keys, c.build.fetched.vals), c.build.ignored.vals);
        }
      }
    }
  }

  /** Line 290 runs inside the loop over a lane's fetched entries, so a package
      lane that fetched nothing carries nothing forward: the successor's package
      lane receives only the build lane's final `resolved`, and that only when
      the build lane fetched something. */
  lemma ResolveDepsIdlePackages(env: Env, prefs: Prefs, cur: RoundState, next: RoundState)
    requires cur.Valid() && next.Valid() && cur.pkgs.fetched.vals == map[]
    ensures var r := ResolveDeps(env, prefs, cur, next);
      r.err.None? ==>
        r.next.pkgs.resolved.vals == if cur.build.fetched.keys == [] then next.pkgs.resolved.vals
                                     else next.pkgs.resolved.vals + r.cur.build.resolved.vals
  {
    var s := StartState(cur, next);
    var items1 := ItemsOf(cur.build.fetched.keys, cur.build.fetched.vals);
    ItemsOfValid(cur.build.fetched);
    ResolveLaneFrame(env, prefs, BuildLane, s, items1);
    ResolveLaneCarries(env, prefs, BuildLane, s, items1);
    var s1 := ResolveLane(env, prefs, BuildLane, s, items1);
    var s2' := Swapped(s1);
    if s1.err.None? {
      assert s2'.l.fetched.vals == map[];
      EmptyKeys(s2'.l.fetched);
      assert ItemsOf(s2'.l.fetched.keys, s2'.l.fetched.vals) == [];
    } else {
      ResolveLaneErrSticky(env, prefs, PkgsLane, s2', ItemsOf(s2'.l.fetched.keys, s2'.l.fetched.vals));
    }
  }

  /** A round whose package lane has nothing pending and nothing fetched drops
      that lane's `resolved`: the new round's package lane holds only names the
      build lane resolved. A package resolved in an earlier round, and not
      resolved by the build lane now, is left out of every later round and so is
      never installed, although it was fetched. */
  lemma RoundCallDropsIdleResolved(env: Env, prefs: Prefs, cur: RoundState, installDirs: Dict<Name, Path>, sourcesDir: Path, a: Name)
    requires cur.Valid() && cur.pkgs.toFetch.vals == map[] && cur.pkgs.fetched.vals == map[]
    ensures var r := RoundCall(env, prefs, cur, installDirs, sourcesDir);
      && (r.err.None? ==> r.next.pkgs.resolved.vals.Keys <= r.cur.build.resolved.vals.Keys)
      && (r.err.None? && a in cur.pkgs.resolved.vals && a !in r.cur.build.resolved.vals ==> a !in r.next.pkgs.resolved.vals)
  {
    FetchLaneFacts(cur.build, sourcesDir, env);
    FetchLaneFacts(cur.pkgs, sourcesDir, env);
    var fb := FetchLane(cur.build, sourcesDir, env);
    var fp := FetchLane(cur.pkgs, sourcesDir, env);
    if fb.ok && fp.ok {
      assert fp.lane.fetched.vals == map[];
      ResolveDepsIdlePackages(env, prefs, RoundState(fb.lane, fp.lane), NewRound());
    }
  }

  lemma {:induction false} ProcessedDirsKeys(items: seq<(Name, Path)>, ignored: map<Name, Pkg>)
    ensures ProcessedDirs(items, ignored).Keys <= ItemKeys(items)
    decreases |items|
  {
    if items != [] {
      ProcessedDirsKeys(items[..|items| - 1], ignored);
    }
  }

  // ---------------------------------------------------------------------------
  // The driver loop

  /** What a round call guarantees the driver loop. */
  ghost predicate GoodStep(cur: RoundState, installDirs: Dict<Name, Path>, r: RoundResult) {
    && r.installDirs.Valid() && installDirs.vals.Keys <= r.installDirs.vals.Keys
    && (r.err.Some? ==> r.err == Some(FetcherNotImplemented) || r.err == Some(UnboundSuccessor))
    && (r.err.None? ==> r.next.Valid() && Covered(r.next, r.installDirs) && r.next.build.resolved.vals == map[])
  }

  lemma RoundCallGood(env: Env, prefs: Prefs, cur: RoundState, installDirs: Dict<Name, Path>, sourcesDir: Path)
    requires cur.Valid() && installDirs.Valid() && Covered(cur, installDirs)
    ensures GoodStep(cur, installDirs, RoundCall(env, prefs, cur, installDirs, sourcesDir))
  {
    RoundCallNext(env, prefs, cur, installDirs, sourcesDir);
    RoundCallErrors(env, prefs, cur, installDirs, sourcesDir);
    RoundCallInstallDirs(env, prefs, cur, installDirs, sourcesDir);
    RoundCallCovered(env, prefs, cur, installDirs, sourcesDir);
  }

  /** One more round of the driver loop, without error: what remains to run
      starts from the new round `next`, after the events `evs` of this one. */
  lemma DriveStep(call: (RoundState, Dict<Name, Path>) -> RoundResult, cur: RoundState, installDirs: Dict<Name, Path>, fuel: nat,
                  events: seq<Event>, run: RunResult, after: RoundState, next: RoundState, installDirs': Dict<Name, Path>, evs: seq<Event>,
                  fuel': nat, events': seq<Event>)
    requires cur.HasWork() && fuel == fuel' + 1 && events' == events + evs
    requires call(cur, installDirs) == RoundResult(after, next, installDirs', evs, None)
    requires run == After(events, Drive(call, cur, installDirs, fuel))
    ensures run == After(events', Drive(call, next, installDirs', fuel'))
  {
    var rest := Drive(call, next, installDirs', fuel');
    assert Drive(call, cur, installDirs, fuel) == DriveOn(call, cur, installDirs, fuel - 1);
    assert events + (evs + rest.events) == (events + evs) + rest.events;
  }

  /** A round of the driver loop that raises `e` ends the loop with that error. */
  lemma DriveStepFails(call: (RoundState, Dict<Name, Path>) -> RoundResult, cur: RoundState, installDirs: Dict<Name, Path>, fuel: nat,
                       events: seq<Event>, run: RunResult, after: RoundState, next: RoundState, installDirs': Dict<Name, Path>, evs: seq<Event>, e: Error)
    requires cur.HasWork() && fuel > 0
    requires call(cur, installDirs) == RoundResult(after, next, installDirs', evs, Some(e))
    requires run == After(events, Drive(call, cur, installDirs, fuel))
    ensures run == RunResult(after, installDirs', events + evs, Failed(e))
  {
    assert Drive(call, cur, installDirs, fuel) == DriveOn(call, cur, installDirs, fuel - 1);
  }

  /** The round caller of the download calls the round. */
  lemma CallerCalls(env: Env, prefs: Prefs, sourcesDir: Path)
    ensures Calls(RoundCaller(env, prefs, sourcesDir), env, prefs, sourcesDir)
  {
  }

  /** The driver loop stops with nothing left to run when the round has no
      work (it completes) or the fuel is spent (it runs out). */
  lemma DriveStops(call: (RoundState, Dict<Name, Path>) -> RoundResult, cur: RoundState, installDirs: Dict<Name, Path>, fuel: nat)
    requires !cur.HasWork() || fuel == 0
    ensures Drive(call, cur, installDirs, fuel) == RunResult(cur, installDirs, [], if cur.HasWork() then OutOfFuel else Completed)
  {
  }

  /** A driver loop whose round calls keep `GoodStep` keeps every resolved
      name covered and `installDirs` only gains keys. When it completes, the
      final round has nothing to fetch; when the first round had no resolved
      build tool, neither has the final round. It never fails with a missing
      install directory. */
  lemma {:induction false} DriveFacts(call: (RoundState, Dict<Name, Path>) -> RoundResult, cur: RoundState, installDirs: Dict<Name, Path>, fuel: nat)
    requires forall c: RoundState, d: Dict<Name, Path> | c.Valid() && d.Valid() && Covered(c, d) :: GoodStep(c, d, call(c, d))
    requires cur.Valid() && installDirs.Valid() && Covered(cur, installDirs)
    ensures var r := Drive(call, cur, installDirs, fuel);
      && r.installDirs.Valid() && installDirs.vals.Keys <= r.installDirs.vals.Keys
      && (r.outcome.Failed? ==> !r.outcome.error.MissingInstallDir?)
      && (r.outcome == Completed ==> !r.final.HasWork() && r.final.Valid() && Covered(r.final, r.installDirs))
      && (r.outcome == Completed && cur.build.resolved.vals == map[] ==> r.final.build.resolved.vals == map[])
    decreases fuel
  {
    if cur.HasWork() && fuel > 0 {
      var r := call(cur, installDirs);
      assert Drive(call, cur, installDirs, fuel) == DriveOn(call, cur, installDirs, fuel - 1);
      if r.err.None? {
        DriveFacts(call, r.next, r.installDirs, fuel - 1);
      }
    }
  }

  /** The driver loop of the download keeps every resolved name covered and
      `installDirs` only gains keys. When it completes, the final round has
      nothing to fetch; when the first round had no resolved build tool,
      neither has the final round (line 290 never writes the successor's build
      lane's `resolved`). It never fails with a missing install directory. */
  lemma RunFacts(env: Env, prefs: Prefs, cur: RoundState, installDirs: Dict<Name, Path>, sourcesDir: Path, fuel: nat)
    requires cur.Valid() && installDirs.Valid() && Covered(cur, installDirs)
    ensures var r := Run(env, prefs, cur, installDirs, sourcesDir, fuel);
      && r.installDirs.Valid() && installDirs.vals.Keys <= r.installDirs.vals.Keys
      && (r.outcome.Failed? ==> !r.outcome.error.MissingInstallDir?)
      && (r.outcome == Completed ==> !r.final.HasWork() && r.final.Valid() && Covered(r.final, r.installDirs))
      && (r.outcome == Completed && cur.build.resolved.vals == map[] ==> r.final.build.resolved.vals == map[])
  {
    var p := prefs.Clone(Some(false), None, None);
    var call := RoundCaller(env, p, sourcesDir);
    forall c: RoundState, d: Dict<Name, Path> | c.Valid() && d.Valid() && Covered(c, d)
      ensures GoodStep(c, d, call(c, d))
    {
      RoundCallGood(env, p, c, d, sourcesDir);
    }
    DriveFacts(call, cur, installDirs, fuel);
  }

  /** Every round runs with `upgrade` cleared, so the caller's `upgrade` has no
      effect on the rounds. */
  lemma RunIgnoresUpgrade(env: Env, prefs: Prefs, upgrade: bool, cur: RoundState, installDirs: Dict<Name, Path>, sourcesDir: Path, fuel: nat)
    ensures Run(env, prefs, cur, installDirs, sourcesDir, fuel) == Run(env, prefs.(upgrade := upgrade), cur, installDirs, sourcesDir, fuel)
  {
    assert prefs.Clone(Some(false), None, None) == prefs.(upgrade := upgrade).Clone(Some(false), None, None);
  }

  // ---------------------------------------------------------------------------
  // Installing

  /** One `buildAndInstallWheel` call, with no extra path, per name that has an
      install directory, in order. */
  function InstallCalls(ks: seq<Name>, installDirs: Dict<Name, Path>): (es: seq<Event>)
    ensures (forall i | 0 <= i < |ks| :: ks[i] in installDirs.vals) ==>
      |es| == |ks| && forall i | 0 <= i < |ks| :: es[i] == BuildAndInstall(installDirs.vals[ks[i]], [])
    decreases |ks|
  {
    if ks == [] then []
    else
      var init := ks[..|ks| - 1];
      var k := ks[|ks| - 1];
      assert forall i | 0 <= i < |init| :: init[i] == ks[i];
      InstallCalls(init, installDirs) + (if k in installDirs.vals then [BuildAndInstall(installDirs.vals[k], [])] else [])
  }

  /** Installing names succeeds exactly when each has an install directory, and
      then builds them in order; otherwise it stops at the first name without
      one, after building those before it. */
  lemma InstallEachFacts(ks: seq<Name>, installDirs: Dict<Name, Path>)
    ensures var r := InstallEach(ks, installDirs);
      && (r.err.None? <==> forall i | 0 <= i < |ks| :: ks[i] in installDirs.vals)
      && (r.err.None? ==> r.events == InstallCalls(ks, installDirs))
      && (r.err.Some? ==> exists j | 0 <= j < |ks| ::
            && ks[j] !in installDirs.vals
            && (forall i | 0 <= i < j :: ks[i] in installDirs.vals)
            && r.err == Some(MissingInstallDir(ks[j]))
            && r.events == InstallCalls(ks[..j], installDirs))
  {
    InstallEachSucceeds(ks, installDirs);
    InstallEachFails(ks, installDirs);
  }

  /** Installing names succeeds exactly when each has an install directory, and
      then builds them in order. */
  lemma {:induction false} InstallEachSucceeds(ks: seq<Name>, installDirs: Dict<Name, Path>)
    ensures var r := InstallEach(ks, installDirs);
      && (r.err.None? <==> forall i | 0 <= i < |ks| :: ks[i] in installDirs.vals)
      && (r.err.None? ==> r.events == InstallCalls(ks, installDirs))
    decreases |ks|
  {
    if ks != [] {
      var init := ks[..|ks| - 1];
      assert forall i | 0 <= i < |init| :: init[i] == ks[i];
      InstallEachSucceeds(init, installDirs);
    }
  }

  /** A failing install stops at the first name without an install directory,
      after building those before it. */
  lemma {:induction false} InstallEachFails(ks: seq<Name>, installDirs: Dict<Name, Path>)
    ensures var r := InstallEach(ks, installDirs);
      r.err.Some? ==> exists j | 0 <= j < |ks| ::
        && ks[j] !in installDirs.vals
        && (forall i | 0 <= i < j :: ks[i] in installDirs.vals)
        && r.err == Some(MissingInstallDir(ks[j]))
        && r.events == InstallCalls(ks[..j], installDirs)
    decreases |ks|
  {
    if ks != [] {
      var init := ks[..|ks| - 1];
      assert forall i | 0 <= i < |init| :: init[i] == ks[i];
      InstallEachFails(init, installDirs);
      InstallEachSucceeds(init, installDirs);
      var r := InstallEach(init, installDirs);
      if r.err.Some? {
        var j :| 0 <= j < |init| && init[j] !in installDirs.vals && (forall i | 0 <= i < j :: init[i] in installDirs.vals)
          && r.err == Some(MissingInstallDir(init[j])) && r.events == InstallCalls(init[..j], installDirs);
        assert init[..j] == ks[..j];
      } else if ks[|ks| - 1] !in installDirs.vals {
        assert init == ks[..|ks| - 1];
      }
    }
  }

  /** Once installing a prefix of the names fails, installing all of them fails the same way. */
  lemma {:induction false} InstallEachStops(ks: seq<Name>, installDirs: Dict<Name, Path>, k: nat)
    requires k <= |ks| && InstallEach(ks[..k], installDirs).err.Some?
    ensures InstallEach(ks, installDirs) == InstallEach(ks[..k], installDirs)
    decreases |ks| - k
  {
    if k < |ks| {
      assert ks[..k + 1][..k] == ks[..k];
      InstallEachStops(ks, installDirs, k + 1);
    } else {
      assert ks[..k] == ks;
    }
  }

  /** The first round: only the package lane's `toFetch` holds anything, the
      canonical names of the requested packages. */
  lemma SeedFacts(env: Env, names: seq<string>)
    ensures var r := Seed(env, names);
      && r.Valid() && r.build == EmptyLane()
      && r.pkgs == EmptyLane().(toFetch := r.pkgs.toFetch)
      && (forall n :: n in r.pkgs.toFetch.vals <==> exists i | 0 <= i < |names| :: env.canonicalName(names[i]) == n)
      && (forall n | n in r.pkgs.toFetch.vals :: r.pkgs.toFetch.vals[n] == 1)
  {
    var d := SeedNames(env, names);
    assert (map[] + d.vals) == d.vals;
  }

  /** Installing a round whose build lane resolved nothing and whose resolved
      package names all have an install directory reports that there is no
      build tool to install, then builds the resolved packages in order, or
      reports that there is no package to install. */
  lemma RoundInstallFacts(r: RoundState, installDirs: Dict<Name, Path>)
    requires r.Valid() && Covered(r, installDirs) && r.build.resolved.vals == map[]
    ensures var ks := r.pkgs.resolved.keys;
      RoundInstall(r, installDirs) == InstallResult(
        [NothingToInstall(PackageTypeName(BuildLane))] +
        (if |ks| == 0 then [NothingToInstall(PackageTypeName(PkgsLane))] else InstallCalls(ks, installDirs)),
        None)
  {
    EmptyKeys(r.build.resolved);
    InstallEachFacts(r.pkgs.resolved.keys, installDirs);
  }

  /** The install phase after a driver loop that kept its facts: it completes
      exactly when the loop did and never fails for a missing install
      directory; after a completed loop it reports that there is no build tool
      to install, then builds the resolved packages in order, or reports that
      there is no package to install. */
  lemma FinishFacts(run: RunResult)
    requires run.outcome.Failed? ==> !run.outcome.error.MissingInstallDir?
    requires run.outcome == Completed ==>
      run.final.Valid() && Covered(run.final, run.installDirs) && run.final.build.resolved.vals == map[]
    ensures var d := Finish(run);
      && (d.outcome == Completed <==> run.outcome == Completed)
      && !(d.outcome.Failed? && d.outcome.error.MissingInstallDir?)
      && (run.outcome == Completed ==>
            var ks := run.final.pkgs.resolved.keys;
            d.events == run.events + ([NothingToInstall(PackageTypeName(BuildLane))] +
              (if |ks| == 0 then [NothingToInstall(PackageTypeName(PkgsLane))] else InstallCalls(ks, run.installDirs))))
  {
    if run.outcome == Completed {
      RoundInstallFacts(run.final, run.installDirs);
    }
  }

  /** The download never fails for a missing install directory. When the rounds
      complete, the install phase reports that there is no build tool to
      install (the last round's build lane never has anything resolved) and
      then builds the last round's resolved packages in order, or reports that
      there is no package to install. */
  lemma DownloadFacts(env: Env, prefs: Prefs, names: seq<string>, installDirs: Dict<Name, Path>, sourcesDir: Path, fuel: nat)
    requires installDirs.Valid()
    ensures var run := Run(env, prefs, Seed(env, names), installDirs, sourcesDir, fuel);
      var d := Download(env, prefs, names, installDirs, sourcesDir, fuel);
      && (d.outcome == Completed <==> run.outcome == Completed)
      && !(d.outcome.Failed? && d.outcome.error.MissingInstallDir?)
      && (run.outcome == Completed ==>
            var ks := run.final.pkgs.resolved.keys;
            d.events == run.events + ([NothingToInstall(PackageTypeName(BuildLane))] +
              (if |ks| == 0 then [NothingToInstall(PackageTypeName(PkgsLane))] else InstallCalls(ks, run.installDirs))))
  {
    SeedFacts(env, names);
    var seed := Seed(env, names);
    RunFacts(env, prefs, seed, installDirs, sourcesDir, fuel);
    FinishFacts(Run(env, prefs, seed, installDirs, sourcesDir, fuel));
  }
}
