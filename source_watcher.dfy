/**
 * The source-folder watcher: which files the watcher ignores (any path component
 * starting with a dot) and which `add` events start a `transcodeVideo` call (a
 * supported extension, in any letter case).
 */
module SourceWatcher {
  import opened Text
  import opened NodePath

  /** The extensions `watchFolder` hands to the transcoder, lower-case. */
  const SupportedFormats: seq<string> := [".mp4", ".mkv", ".avi", ".mov", ".wmv"]

  /** `path.extname(filePath).toLowerCase()` is one of the supported formats. */
  predicate IsSupportedVideo(filePath: Path) {
    Lower(Extname(filePath)) in SupportedFormats
  }

  /** The characters a regular expression's `.` does not match. */
  predicate IsLineTerminator(c: char) {
    c == '\n' || c == '\r' || c == '\U{2028}' || c == '\U{2029}'
  }

  predicate IsSeparator(c: char) {
    c == '/' || c == '\\'
  }

  /**
   * The pattern `(^|[\/\\])\..` tried at position `k`: either `^` holds at `k` or a
   * separator stands there, and then a dot followed by any character but a line end.
   */
  predicate MatchesAt(p: Path, k: nat) {
    (k == 0 && k + 1 < |p| && p[k] == '.' && !IsLineTerminator(p[k + 1]))
    || (k + 2 < |p| && IsSeparator(p[k]) && p[k + 1] == '.' && !IsLineTerminator(p[k + 2]))
  }

  /** The regular expression's search: the pattern is tried at `k`, then at every later position. */
  function SearchFrom(p: Path, k: nat): bool
    decreases |p| - k
  {
    if k > |p| then false
    else MatchesAt(p, k) || SearchFrom(p, k + 1)
  }

  /** The watcher's `ignored` option. */
  predicate IsIgnored(p: Path) {
    SearchFrom(p, 0)
  }

  /** A path component that begins with a dot and has more after it, starting at `i`. */
  predicate HiddenComponentAt(p: Path, i: nat) {
    i + 1 < |p| && p[i] == '.' && !IsLineTerminator(p[i + 1]) && (i == 0 || IsSeparator(p[i - 1]))
  }

  lemma {:induction false} SearchFromFinds(p: Path, k: nat)
    ensures SearchFrom(p, k) <==> exists i :: k <= i <= |p| && MatchesAt(p, i)
    decreases |p| - k
  {
    if k <= |p| {
      SearchFromFinds(p, k + 1);
      if SearchFrom(p, k + 1) {
        var i :| k + 1 <= i <= |p| && MatchesAt(p, i);
        assert k <= i <= |p| && MatchesAt(p, i);
      }
    }
  }

  /**
   * A path is ignored exactly when one of its components (the first, or one after a
   * `/` or `\`) starts with a dot followed by another character.
   */
  lemma IgnoredIff(p: Path)
    ensures IsIgnored(p) <==> exists i :: 0 <= i < |p| && HiddenComponentAt(p, i)
  {
    SearchFromFinds(p, 0);
    if IsIgnored(p) {
      var k :| 0 <= k <= |p| && MatchesAt(p, k);
      if k == 0 && k + 1 < |p| && p[k] == '.' && !IsLineTerminator(p[k + 1]) {
        assert HiddenComponentAt(p, 0);
      } else {
        assert HiddenComponentAt(p, k + 1);
      }
    }
    if i :| 0 <= i < |p| && HiddenComponentAt(p, i) {
      if i == 0 {
        assert MatchesAt(p, 0);
      } else {
        assert MatchesAt(p, i - 1);
      }
    }
  }

  /** A dot-file, or a file inside a dot-folder, is ignored wherever it lies. */
  lemma DotComponentIgnored(dir: Path, name: string, rest: string)
    requires |name| >= 2 && name[0] == '.' && !IsLineTerminator(name[1])
    ensures IsIgnored(Join(dir, name + rest))
  {
    var p := Join(dir, name + rest);
    assert p[|dir|] == '/' && p[|dir| + 1] == '.' && p[|dir| + 2] == name[1];
    assert HiddenComponentAt(p, |dir| + 1);
    IgnoredIff(p);
  }

  /** A path none of whose components starts with a dot is watched. */
  lemma VisiblePathNotIgnored(p: Path)
    requires |p| > 0 ==> p[0] != '.'
    requires forall i :: 0 <= i < |p| - 1 && IsSeparator(p[i]) ==> p[i + 1] != '.'
    ensures !IsIgnored(p)
  {
    IgnoredIff(p);
    forall i | 0 <= i < |p|
      ensures !HiddenComponentAt(p, i)
    {
      if i > 0 && IsSeparator(p[i - 1]) {
        assert p[(i - 1) + 1] != '.';
      }
    }
  }

  /** An `add` event the handler passes on: a watched path with a supported extension. */
  predicate IsAccepted(p: Path) {
    !IsIgnored(p) && IsSupportedVideo(p)
  }

  /** The events `keep` holds of, in order. */
  function Filter(events: seq<Path>, keep: Path -> bool): (kept: seq<Path>)
    ensures |kept| <= |events|
  {
    if events == [] then []
    else Filter(events[..|events| - 1], keep) + (if keep(events[|events| - 1]) then [events[|events| - 1]] else [])
  }

  /**
   * The `transcodeVideo` calls a run of `add` events produces: one per event whose
   * path is watched and has a supported extension, with that path, in event order.
   */
  function TranscodeCalls(added: seq<Path>): seq<Path> {
    Filter(added, IsAccepted)
  }

  lemma {:induction false} FilterMembers(events: seq<Path>, keep: Path -> bool)
    ensures forall p :: p in Filter(events, keep) <==> p in events && keep(p)
  {
    if events != [] {
      var init := events[..|events| - 1];
      FilterMembers(init, keep);
      assert events == init + [events[|events| - 1]];
    }
  }

  lemma {:induction false} FilterAppend(a: seq<Path>, b: seq<Path>, keep: Path -> bool)
    ensures Filter(a + b, keep) == Filter(a, keep) + Filter(b, keep)
    decreases |b|
  {
    if b == [] {
      assert a + b == a;
    } else {
      var init := b[..|b| - 1];
      FilterAppend(a, init, keep);
      var ab := a + b;
      assert ab[..|ab| - 1] == a + init && ab[|ab| - 1] == b[|b| - 1];
    }
  }

  /** A path is passed to the transcoder exactly when one of its events is accepted. */
  lemma TranscodeCallsMembers(added: seq<Path>)
    ensures forall p :: p in TranscodeCalls(added) <==> p in added && !IsIgnored(p) && IsSupportedVideo(p)
  {
    FilterMembers(added, IsAccepted);
  }

  /** Events are handled one at a time: the calls for two runs of events are the two runs' calls. */
  lemma TranscodeCallsAppend(a: seq<Path>, b: seq<Path>)
    ensures TranscodeCalls(a + b) == TranscodeCalls(a) + TranscodeCalls(b)
  {
    FilterAppend(a, b, IsAccepted);
  }

  /** An accepted event gives exactly one call, with its path unchanged; every other event none. */
  lemma OneCallPerEvent(p: Path)
    ensures TranscodeCalls([p]) == (if !IsIgnored(p) && IsSupportedVideo(p) then [p] else [])
  {
    assert [p][..0] == [];
  }

  /**
   * The extension check ignores letter case: `dir/stem.x` is transcoded exactly when
   * `.x` in lower case is a supported format, so `clip.MOV` is accepted.
   */
  lemma SupportedInAnyCase(dir: Path, stem: string, x: string)
    requires IsSegment(stem) && x != [] && '.' !in x && '/' !in x
    ensures IsSupportedVideo(Join(dir, stem + "." + x)) <==> "." + Lower(x) in SupportedFormats
  {
    StemOfJoin(dir, stem, x);
    LowerConcat(".", x);
    assert Lower(".") == ".";
  }

  lemma UpperCaseMovIsSupported(dir: Path)
    ensures IsSupportedVideo(Join(dir, "clip.MOV"))
  {
    SupportedInAnyCase(dir, "clip", "MOV");
    assert "clip" + "." + "MOV" == "clip.MOV";
    var low := Lower("MOV");
    assert low[0] == 'm' && low[1] == 'o' && low[2] == 'v';
    assert "." + low == ".mov";
  }

  /** `clip.M\u212AV`, written with the Kelvin sign, lower-cases to `.mkv` and is accepted. */
  lemma KelvinSignMkvIsSupported(dir: Path)
    ensures IsSupportedVideo(Join(dir, "clip.M\U{212A}V"))
  {
    SupportedInAnyCase(dir, "clip", "M\U{212A}V");
    assert "clip" + "." + "M\U{212A}V" == "clip.M\U{212A}V";
    var low := Lower("M\U{212A}V");
    assert low[0] == 'm' && low[1] == 'k' && low[2] == 'v';
    assert "." + low == ".mkv";
  }

  /** A file without an extension is never transcoded. */
  lemma NoExtensionNotSupported(dir: Path, name: string)
    requires IsSegment(name) && '.' !in name
    ensures !IsSupportedVideo(Join(dir, name))
  {
    StemOfJoinWithoutExtension(dir, name);
  }
}
