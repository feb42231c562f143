/** Values shared by the whole model: names, paths, requirements, the abstract
    collaborators of the resolution engine and the events it causes. */
module Common {

  datatype Option<+T> = None | Some(value: T)

  /** A package name, as used as a dictionary key. */
  type Name = string

  /** A filesystem path, as its sequence of segments; `targetDir / name` is `Join`. */
  type Path = seq<string>

  function Join(p: Path, segment: string): (r: Path)
    ensures |r| == |p| + 1 && r[..|p|] == p && r[|p|] == segment
  {
    p + [segment]
  }

  /** The fetcher kind of packages that are provided by the system (`Source.system`). */
  const SYSTEM: string := "system"

  /** The `fetcher` field of a registry entry: either a `SourceFetcher` (with its
      kind, repository, clone depth, ref spec and sub-directory; an empty
      `subDir` is falsy) or some other spec, of which only the kind is read. */
  datatype FetcherSpec =
    | SourceFetcher(kind: string, repo: string, depth: Option<nat>, refSpec: Option<string>, subDir: string)
    | OtherFetcher(kind: string)

  /** `registry.lookup(name).pkg`: the registry's own name for the package and its fetcher spec. */
  datatype Pkg = Pkg(name: Name, fetcher: FetcherSpec)

  /** A requirement as produced by metadata extraction. */
  datatype Requirement = Requirement(name: Name, specifier: string, marker: Option<string>)

  /** What `extractMetadata` returns that the engine reads. */
  datatype Metadata = Metadata(deps: seq<Requirement>, buildDeps: seq<Requirement>)

  /** The collaborators the engine calls but does not define:
      - `lookup`: the registry;
      - `fetchers`: the kinds for which a fetcher is available;
      - `extractMetadata`: reads a source tree;
      - `installedVersion`: `getInstalledPackageVersion`;
      - `accepts(specifier, version)`: the specifier filter keeps the version (pre-releases allowed);
      - `unpin`: the specifier rewrite done by `unpinRequirement`;
      - `canonicalName`: `canonicalizedRequirement(x).name`. */
  datatype Env = Env(
    lookup: Name -> Pkg,
    fetchers: set<string>,
    extractMetadata: Path -> Metadata,
    installedVersion: Name -> Option<string>,
    accepts: (string, string) -> bool,
    unpin: string -> string,
    canonicalName: string -> Name)

  /** Observable calls into collaborators, in the order they happen. */
  datatype Event =
    | Fetch(kind: string, repo: string, outDir: Path, depth: Option<nat>, refSpec: Option<string>)
    | ExtractMetadata(dir: Path)
    | BuildAndInstall(dir: Path, buildPythonPath: seq<Path>)
    | NothingToInstall(packageTypeName: string)
}
