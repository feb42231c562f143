/** Finding the installed distribution of a package through distlib's
    `DistributionPath`, whose name may be spelt with dashes or underscores. */
module Distlib {
  import opened Common

  /** The keys of an installation scheme whose directories hold installed packages, in order. */
  const DISTLIB_PATH_KEYS: seq<string> := ["platlib", "platstdlib", "purelib"]

  /** An installed distribution as `DistributionPath.get_distribution` returns it. */
  datatype Distribution = Distribution(name: string, version: string)

  /** The selected directories, or the scheme key that `scheme[k]` failed on (`KeyError`). */
  datatype PathsResult = Paths(paths: seq<string>) | MissingKey(key: string)

  /** `tuple(scheme[k] for k in keys)`, evaluated from the first key on. */
  function SelectKeys(scheme: map<string, string>, keys: seq<string>): (r: PathsResult)
    ensures r.Paths? <==> forall k | k in keys :: k in scheme
    ensures r.Paths? ==> |r.paths| == |keys| && forall i | 0 <= i < |keys| :: r.paths[i] == scheme[keys[i]]
    ensures r.MissingKey? ==> exists j | 0 <= j < |keys| ::
      && keys[j] == r.key && r.key !in scheme
      && forall i | 0 <= i < j :: keys[i] in scheme
    decreases |keys|
  {
    if keys == [] then Paths([])
    else if keys[0] !in scheme then MissingKey(keys[0])
    else
      var rest := SelectKeys(scheme, keys[1..]);
      assert forall k :: k in keys <==> k == keys[0] || k in keys[1..];
      if rest.MissingKey? then
        ghost var j :| 0 <= j < |keys[1..]| && keys[1..][j] == rest.key && rest.key !in scheme
          && forall i | 0 <= i < j :: keys[1..][i] in scheme;
        assert keys[j + 1] == rest.key && forall i | 0 <= i < j + 1 :: keys[i] in scheme;
        rest
      else Paths([scheme[keys[0]]] + rest.paths)
  }

  /** `genDistlibPath(scheme)`: the given scheme, or pip's default one (`getScheme()`)
      when none is given. */
  function GenDistlibPath(scheme: Option<map<string, string>>, defaultScheme: map<string, string>): (r: PathsResult)
    ensures var s := if scheme.Some? then scheme.value else defaultScheme;
      && (r.Paths? <==> "platlib" in s && "platstdlib" in s && "purelib" in s)
      && (r.Paths? ==> r.paths == [s["platlib"], s["platstdlib"], s["purelib"]])
      && (r.MissingKey? ==> r.key == if "platlib" !in s then "platlib" else if "platstdlib" !in s then "platstdlib" else "purelib")
  {
    var s := if scheme.Some? then scheme.value else defaultScheme;
    var r := SelectKeys(s, DISTLIB_PATH_KEYS);
    assert forall k :: k in DISTLIB_PATH_KEYS <==> k == "platlib" || k == "platstdlib" || k == "purelib";
    r
  }

  /** `dp.get_distribution(n)` on a database given as a map from names to distributions. */
  function Get(installed: map<string, Distribution>, n: string): Option<Distribution> {
    if n in installed then Some(installed[n]) else None
  }

  /** What `getInstalledPackageDistribution` returns or raises. */
  datatype Answer =
    | Found(dist: Option<Distribution>)
    /** The `RuntimeError`: both spellings are installed. */
    | BothPresent(dashDist: Distribution, underscoreDist: Distribution)
    /** The `KeyError` out of `genDistlibPath()`. */
    | SchemeKeyMissing(key: string)

  /** The answer and the names looked up in the database, in order. */
  datatype Query = Query(answer: Answer, lookups: seq<string>)

  /** Choosing between the two spellings in a database of installed distributions. */
  function Choose(installed: map<string, Distribution>, dashName: string, underscoreName: string): (r: Query)
    ensures dashName == underscoreName ==> r == Query(Found(Get(installed, dashName)), [dashName])
    ensures dashName != underscoreName ==> r.lookups == [dashName, underscoreName]
    ensures dashName != underscoreName && dashName in installed && underscoreName in installed ==>
      r.answer == BothPresent(installed[dashName], installed[underscoreName])
    ensures dashName != underscoreName && dashName in installed && underscoreName !in installed ==>
      r.answer == Found(Some(installed[dashName]))
    ensures dashName != underscoreName && dashName !in installed && underscoreName in installed ==>
      r.answer == Found(Some(installed[underscoreName]))
    ensures dashName != underscoreName && dashName !in installed && underscoreName !in installed ==>
      r.answer == Found(None)
  {
    if dashName != underscoreName then
      var dDist := Get(installed, dashName);
      var uDist := Get(installed, underscoreName);
      if dDist.Some? && uDist.Some? then Query(BothPresent(dDist.value, uDist.value), [dashName, underscoreName])
      else Query(Found(if dDist.Some? then dDist else uDist), [dashName, underscoreName])
    else Query(Found(Get(installed, dashName)), [dashName])
  }

  /** `getInstalledPackageDistribution(name)`: the database is opened over the
      directories of pip's default scheme (`distributionsAt`), and `canonicalMulti`
      is `canonicalizePackageNameMulti`, giving the dash and the underscore form. */
  function GetInstalledPackageDistribution(
    name: string, defaultScheme: map<string, string>,
    distributionsAt: seq<string> -> map<string, Distribution>,
    canonicalMulti: string -> (string, string)): (r: Query)
    // pip's default scheme lacks one of the three keys: the `KeyError` for the first one, before any lookup
    ensures !("platlib" in defaultScheme && "platstdlib" in defaultScheme && "purelib" in defaultScheme) ==>
      && r.lookups == []
      && r.answer == SchemeKeyMissing(if "platlib" !in defaultScheme then "platlib"
                                      else if "platstdlib" !in defaultScheme then "platstdlib" else "purelib")
    // otherwise the database is opened over exactly those three directories, in that order
    ensures "platlib" in defaultScheme && "platstdlib" in defaultScheme && "purelib" in defaultScheme ==>
      var db := distributionsAt([defaultScheme["platlib"], defaultScheme["platstdlib"], defaultScheme["purelib"]]);
      var d, u := canonicalMulti(name).0, canonicalMulti(name).1;
      && !r.answer.SchemeKeyMissing?
      && (d == u ==> r == Query(Found(Get(db, d)), [d]))
      && (d != u ==> r.lookups == [d, u])
      && (d != u && d in db && u in db ==> r.answer == BothPresent(db[d], db[u]))
      && (d != u && d in db && u !in db ==> r.answer == Found(Some(db[d])))
      && (d != u && d !in db && u in db ==> r.answer == Found(Some(db[u])))
      && (d != u && d !in db && u !in db ==> r.answer == Found(None))
      // the lookup never guesses between the two spellings
      && (r.answer.Found? && r.answer.dist.Some? ==>
            || (d in db && db[d] == r.answer.dist.value && (u in db ==> u == d))
            || (u in db && db[u] == r.answer.dist.value && d !in db))
  {
    match GenDistlibPath(None, defaultScheme)
    case MissingKey(k) => Query(SchemeKeyMissing(k), [])
    case Paths(ps) =>
      var (dashName, underscoreName) := canonicalMulti(name);
      ChooseNeverGuesses(distributionsAt(ps), dashName, underscoreName);
      Choose(distributionsAt(ps), dashName, underscoreName)
  }

  /** A distribution is returned only when it is installed under one of the two
      spellings and the other spelling is not installed: the lookup refuses to guess. */
  lemma ChooseNeverGuesses(installed: map<string, Distribution>, dashName: string, underscoreName: string)
    ensures var r := Choose(installed, dashName, underscoreName);
      r.answer.Found? && r.answer.dist.Some? ==>
        || (dashName in installed && installed[dashName] == r.answer.dist.value && (underscoreName in installed ==> underscoreName == dashName))
        || (underscoreName in installed && installed[underscoreName] == r.answer.dist.value && dashName !in installed)
  {
  }

  /** Which spelling is called the dash form does not matter: swapping the two
      gives the same distribution, the same refusal (with the pair swapped) and
      the same lookups in the other order. */
  lemma ChooseSymmetric(installed: map<string, Distribution>, dashName: string, underscoreName: string)
    requires dashName != underscoreName
    ensures var r, s := Choose(installed, dashName, underscoreName), Choose(installed, underscoreName, dashName);
      && (r.answer.Found? <==> s.answer.Found?)
      && (r.answer.Found? ==> r.answer == s.answer)
      && (r.answer.BothPresent? ==> s.answer == BothPresent(r.answer.underscoreDist, r.answer.dashDist))
      && s.lookups == [r.lookups[1], r.lookups[0]]
  {
  }
}
