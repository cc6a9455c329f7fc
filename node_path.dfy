/**
 * Node's posix `path` functions on the paths the services handle: `basename`,
 * `extname`, `basename(p, extname(p))`, `dirname` and `join`.
 */
module NodePath {

  type Path = string

  /**
   * `path.join(dir, name)` for a directory without a trailing separator and a name
   * without separators, `.` or `..` segments: the two are put together with one `/`.
   */
  function Join(dir: Path, name: string): Path {
    dir + "/" + name
  }

  /** The index of the last `c` in `s`, or -1 when there is none. */
  function LastIndex(s: string, c: char): (r: int)
    ensures -1 <= r < |s|
    ensures r >= 0 ==> s[r] == c
    ensures forall k :: r < k < |s| ==> s[k] != c
  {
    if s == [] then -1
    else if s[|s| - 1] == c then |s| - 1
    else LastIndex(s[..|s| - 1], c)
  }

  function StripTrailingSlashes(p: Path): (q: Path)
    ensures |q| <= |p| && q == p[..|q|]
    ensures q == [] || q[|q| - 1] != '/'
  {
    if p != [] && p[|p| - 1] == '/' then StripTrailingSlashes(p[..|p| - 1]) else p
  }

  /** `path.basename(p)`: the last non-empty segment, trailing separators ignored. */
  function Basename(p: Path): (b: string)
    ensures '/' !in b
  {
    var q := StripTrailingSlashes(p);
    q[LastIndex(q, '/') + 1..]
  }

  /**
   * The extension `path.extname` reports for a final segment: from its last `.` on,
   * except when that `.` opens the segment or the segment is `..`.
   */
  function ExtOf(b: string): (e: string)
    ensures |e| <= |b| && e == b[|b| - |e|..]
    ensures e == [] || e[0] == '.'
  {
    var i := LastIndex(b, '.');
    if i <= 0 || b == ".." then "" else b[i..]
  }

  /** `path.extname(p)`. */
  function Extname(p: Path): string {
    ExtOf(Basename(p))
  }

  /** `path.basename(p, path.extname(p))`: the final segment without its last extension. */
  function Stem(p: Path): string {
    var b := Basename(p);
    b[..|b| - |ExtOf(b)|]
  }

  /**
   * Scans right to left over indices `i` down to 1 for the separator that ends the
   * directory part; `matched` is true while only trailing separators have been seen.
   */
  function DirEnd(p: Path, i: int, matched: bool): (e: int)
    requires i < |p|
    ensures e == -1 || 1 <= e <= i
    decreases i
  {
    if i < 1 then -1
    else if p[i] == '/' then (if !matched then i else DirEnd(p, i - 1, true))
    else DirEnd(p, i - 1, false)
  }

  /** `path.dirname(p)`. */
  function Dirname(p: Path): Path {
    if p == [] then "."
    else
      var hasRoot := p[0] == '/';
      var e := DirEnd(p, |p| - 1, true);
      if e == -1 then (if hasRoot then "/" else ".")
      else if hasRoot && e == 1 then "//"
      else p[..e]
  }

  /** A directory of the kind the services are configured with: not empty, no trailing `/`. */
  predicate IsPlainDir(dir: Path) {
    dir != [] && dir[|dir| - 1] != '/'
  }

  /** A single path segment: not empty, no `/`. */
  predicate IsSegment(name: string) {
    name != [] && '/' !in name
  }

  lemma BasenameOfJoin(dir: Path, name: string)
    requires IsSegment(name)
    ensures Basename(Join(dir, name)) == name
  {
    var p := Join(dir, name);
    assert StripTrailingSlashes(p) == p;
    var i := LastIndex(p, '/');
    assert p[|dir|] == '/';
    assert i == |dir|;
    assert p[|dir| + 1..] == name;
  }

  lemma {:induction false} DirEndSkipsSegment(p: Path, start: nat, i: int)
    requires start < |p| && p[start] == '/'
    requires start <= i < |p|
    requires forall k :: start < k <= i ==> p[k] != '/'
    ensures DirEnd(p, i, false) == (if start >= 1 then start else -1)
    decreases i
  {
    if i > start {
      DirEndSkipsSegment(p, start, i - 1);
    } else if start >= 1 {
    }
  }

  /** The directory part of `dir/name` is `dir` itself. */
  lemma DirnameOfJoin(dir: Path, name: string)
    requires IsPlainDir(dir) && IsSegment(name)
    ensures Dirname(Join(dir, name)) == dir
  {
    var p := Join(dir, name);
    var n := |p| - 1;
    assert p[n] == name[|name| - 1];
    forall k | |dir| < k <= n - 1 ensures p[k] != '/' {
      assert p[k] == name[k - |dir| - 1];
    }
    if n - 1 >= |dir| {
      DirEndSkipsSegment(p, |dir|, n - 1);
    }
    assert DirEnd(p, n, true) == DirEnd(p, n - 1, false);
    assert p[..|dir|] == dir;
  }

  /** The final extension of `stem.x` is `.x` when `x` has no dot and `stem` is not empty. */
  lemma ExtOfStemAndExtension(stem: string, x: string)
    requires stem != [] && x != [] && '.' !in x
    ensures ExtOf(stem + "." + x) == "." + x
  {
    var b := stem + "." + x;
    var i := LastIndex(b, '.');
    assert b[|stem|] == '.';
    assert i == |stem|;
    assert b[|stem|..] == "." + x;
  }

  /**
   * `movie.mp4` and `movie.mkv` in any directory both give the stem `movie`: the stem
   * of `dir/stem.x` is `stem` whatever the extension.
   */
  lemma StemOfJoin(dir: Path, stem: string, x: string)
    requires IsSegment(stem) && x != [] && '.' !in x && '/' !in x
    ensures Stem(Join(dir, stem + "." + x)) == stem
    ensures Extname(Join(dir, stem + "." + x)) == "." + x
  {
    var name := stem + "." + x;
    assert '/' !in name by {
      forall k | 0 <= k < |name| ensures name[k] != '/' {
        if k < |stem| { assert name[k] == stem[k]; }
        else if k > |stem| { assert name[k] == x[k - |stem| - 1]; }
      }
    }
    BasenameOfJoin(dir, name);
    ExtOfStemAndExtension(stem, x);
  }

  /** A name with no dot has no extension and is its own stem. */
  lemma StemOfJoinWithoutExtension(dir: Path, name: string)
    requires IsSegment(name) && '.' !in name
    ensures Extname(Join(dir, name)) == ""
    ensures Stem(Join(dir, name)) == name
  {
    BasenameOfJoin(dir, name);
  }
}
