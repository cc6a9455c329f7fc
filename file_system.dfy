/**
 * The filesystem as the services see it through `existsSync`, `readdirSync` and
 * `statSync`: the paths that exist, which of them are directories, and the ordered
 * listing of every directory that can be read.
 */
module FileSystem {
  import opened Wrappers
  import opened NodePath

  datatype Fs = Fs(paths: set<Path>, dirs: set<Path>, listings: map<Path, seq<string>>)

  /** `fs.existsSync(p)`. */
  predicate Exists(fs: Fs, p: Path) {
    p in fs.paths
  }

  /** `fs.readdirSync(p)`: the entry names in listing order; `None` where it throws. */
  function ReadDir(fs: Fs, p: Path): Option<seq<string>> {
    if p in fs.listings then Some(fs.listings[p]) else None
  }

  /** `fs.statSync(p).isDirectory()`; `None` where `statSync` throws because `p` is gone. */
  function IsDirectory(fs: Fs, p: Path): Option<bool> {
    if p in fs.paths then Some(p in fs.dirs) else None
  }
}
