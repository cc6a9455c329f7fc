/**
 * The thumbnail generator: which segment of a package's 480p rendition a
 * thumbnail is taken from, the `processedFolders` bookkeeping that keeps a
 * package from being handled twice, the startup scan of the output root, and
 * the path filters the two watchers apply to their events.
 *
 * The screenshot itself is opaque: each call says whether it would resolve.
 */
module Thumbnails {
  import opened Wrappers
  import opened Text
  import opened NodePath
  import opened FileSystem

  /** The rendition folder segments are looked for in. */
  function ResolutionPath(folder: Path): Path {
    Join(folder, "480p")
  }

  function ThumbnailPath(folder: Path): Path {
    Join(folder, "thumbnail.jpg")
  }

  /** A listing entry the finder accepts: a `.ts` file named `segment_03…`. */
  predicate IsCandidateSegment(file: string) {
    EndsWith(file, ".ts") && StartsWith(file, "segment_03")
  }

  /** The position `files.find` stops at: the first candidate in listing order. */
  function FirstCandidate(files: seq<string>): (r: Option<nat>)
    ensures r.Some? ==> r.value < |files| && IsCandidateSegment(files[r.value])
    ensures r.Some? ==> forall j :: 0 <= j < r.value ==> !IsCandidateSegment(files[j])
    ensures r.None? ==> forall j :: 0 <= j < |files| ==> !IsCandidateSegment(files[j])
  {
    if files == [] then None
    else if IsCandidateSegment(files[0]) then Some(0)
    else match FirstCandidate(files[1..]) {
      case None => None
      case Some(i) => Some(i + 1)
    }
  }

  /**
   * `findFirstVideoSegment`: nothing when `<folder>/480p` is missing or cannot be
   * listed; otherwise the path of the first candidate entry, if there is one.
   */
  function FindFirstVideoSegment(fs: Fs, folder: Path): (r: Option<Path>)
    ensures !Exists(fs, ResolutionPath(folder)) || ReadDir(fs, ResolutionPath(folder)).None? ==> r.None?
    ensures r.Some? ==> exists i :: (0 <= i < |ReadDir(fs, ResolutionPath(folder)).value|
      && r.value == Join(ResolutionPath(folder), ReadDir(fs, ResolutionPath(folder)).value[i])
      && IsCandidateSegment(ReadDir(fs, ResolutionPath(folder)).value[i])
      && forall j :: 0 <= j < i ==> !IsCandidateSegment(ReadDir(fs, ResolutionPath(folder)).value[j]))
    ensures r.None? && Exists(fs, ResolutionPath(folder)) && ReadDir(fs, ResolutionPath(folder)).Some? ==>
      forall f :: f in ReadDir(fs, ResolutionPath(folder)).value ==> !IsCandidateSegment(f)
  {
    var dir := ResolutionPath(folder);
    if !Exists(fs, dir) then None
    else match ReadDir(fs, dir) {
      case None => None
      case Some(files) =>
        match FirstCandidate(files) {
          case None => None
          case Some(i) => Some(Join(dir, files[i]))
        }
    }
  }

  // ---------------------------------------------------------------- segment names

  /** `%03d` for a natural number: at least three digits, zero-padded on the left. */
  function Pad3(n: nat): string {
    if n < 10 then "00" + [DigitChar(n)]
    else if n < 100 then "0" + NatToString(n)
    else NatToString(n)
  }

  /** The file name the encoder gives segment `n` of a rendition: `segment_%03d.ts`. */
  function SegmentName(n: nat): string {
    "segment_" + Pad3(n) + ".ts"
  }

  lemma Pad3Head(n: nat)
    ensures |Pad3(n)| >= 2
    ensures Pad3(n)[..2] == "03" <==> 30 <= n <= 39
  {
    var p := Pad3(n);
    if n < 10 {
      assert p[1] == '0';
    } else if n < 100 {
      assert NatToString(n) == [DigitChar(n / 10)] + [DigitChar(n % 10)];
      assert p[1] == DigitChar(n / 10);
      assert p[0] == '0';
      assert DigitChar(n / 10) == '3' <==> n / 10 == 3;
    } else {
      NatToStringLeadingZero(n);
      assert NatToString(n) == NatToString(n / 10) + [DigitChar(n % 10)];
      assert p[0] == NatToString(n)[0];
    }
  }

  /**
   * Of the segments the encoder writes, the finder accepts exactly segments 30 to 39,
   * which at ten seconds a segment begin five minutes into the video.
   */
  lemma SegmentCandidateIff(n: nat)
    ensures IsCandidateSegment(SegmentName(n)) <==> 30 <= n <= 39
  {
    var name := SegmentName(n);
    Pad3Head(n);
    assert name[|name| - 3..] == ".ts";
    assert name[..8] == "segment_";
    assert name[8..10] == Pad3(n)[..2];
    assert StartsWith(name, "segment_03") <==> name[8..10] == "03";
  }

  /**
   * While a rendition holds only its first 30 segments, however many of them are
   * listed and whatever else lies beside them (its `playlist.m3u8`, say), the
   * finder finds nothing.
   */
  lemma EarlySegmentsAreNoCandidates(fs: Fs, folder: Path, count: nat)
    requires count <= 30
    requires Exists(fs, ResolutionPath(folder))
    requires ReadDir(fs, ResolutionPath(folder)).Some?
    requires forall f :: f in ReadDir(fs, ResolutionPath(folder)).value ==>
      (exists n :: 0 <= n < count && f == SegmentName(n)) || !StartsWith(f, "segment_")
    ensures FindFirstVideoSegment(fs, folder).None?
  {
    var files := ReadDir(fs, ResolutionPath(folder)).value;
    forall j | 0 <= j < |files|
      ensures !IsCandidateSegment(files[j])
    {
      assert files[j] in files;
      if StartsWith(files[j], "segment_") {
        var n :| 0 <= n < count && files[j] == SegmentName(n);
        SegmentCandidateIff(n);
      } else {
        CandidateIsSegmentFile(files[j]);
      }
    }
  }

  /** A candidate's name starts with `segment_`. */
  lemma CandidateIsSegmentFile(f: string)
    ensures IsCandidateSegment(f) ==> StartsWith(f, "segment_")
  {
    if IsCandidateSegment(f) {
      assert f[..8] == f[..10][..8];
    }
  }

  /**
   * When the segment watcher sees segment 000, the 480p folder holds that segment and
   * its playlist, and the finder finds nothing there.
   */
  lemma FirstSegmentWithPlaylistFindsNothing(fs: Fs, folder: Path)
    requires Exists(fs, ResolutionPath(folder))
    requires ReadDir(fs, ResolutionPath(folder)) == Some([SegmentName(0), "playlist.m3u8"])
    ensures FindFirstVideoSegment(fs, folder).None?
  {
    var files := [SegmentName(0), "playlist.m3u8"];
    forall f | f in files
      ensures (exists n :: 0 <= n < 1 && f == SegmentName(n)) || !StartsWith(f, "segment_")
    {
      if f == "playlist.m3u8" {
        assert f[0] != 's';
      }
    }
    EarlySegmentsAreNoCandidates(fs, folder, 1);
  }

  // ---------------------------------------------------------------- processMovieFolder

  /** What one `processMovieFolder` call does for a folder. */
  datatype Step =
    | AlreadyProcessed
    | ThumbnailExists
    | NoSegmentYet
    | Generate(segment: Path, thumbnail: Path)

  function PlanFor(processed: set<Path>, fs: Fs, folder: Path): Step {
    if folder in processed then AlreadyProcessed
    else if Exists(fs, ThumbnailPath(folder)) then ThumbnailExists
    else match FindFirstVideoSegment(fs, folder) {
      case None => NoSegmentYet
      case Some(segment) => Generate(segment, ThumbnailPath(folder))
    }
  }

  /** `processedFolders` after the call; `generated` says whether the screenshot resolved. */
  function ProcessedAfter(processed: set<Path>, fs: Fs, folder: Path, generated: bool): set<Path> {
    match PlanFor(processed, fs, folder) {
      case ThumbnailExists => processed + {folder}
      case Generate(_, _) => if generated then processed + {folder} else processed
      case _ => processed
    }
  }

  /** A folder already in the set is left alone. */
  lemma ProcessedFolderIsSkipped(processed: set<Path>, fs: Fs, folder: Path, generated: bool)
    requires folder in processed
    ensures PlanFor(processed, fs, folder) == AlreadyProcessed
    ensures ProcessedAfter(processed, fs, folder, generated) == processed
  {
  }

  /**
   * The set only grows, by this folder at most, and the folder joins it exactly when
   * its thumbnail was there already or a screenshot was taken and resolved.
   */
  lemma ProcessedOnlyGrows(processed: set<Path>, fs: Fs, folder: Path, generated: bool)
    ensures processed <= ProcessedAfter(processed, fs, folder, generated) <= processed + {folder}
    ensures folder !in processed ==>
      (folder in ProcessedAfter(processed, fs, folder, generated) <==>
        Exists(fs, ThumbnailPath(folder)) || (FindFirstVideoSegment(fs, folder).Some? && generated))
  {
  }

  /** A screenshot is taken only of the finder's segment, into the folder's `thumbnail.jpg`. */
  lemma GenerateUsesFirstSegment(processed: set<Path>, fs: Fs, folder: Path)
    requires PlanFor(processed, fs, folder).Generate?
    ensures folder !in processed && !Exists(fs, ThumbnailPath(folder))
    ensures PlanFor(processed, fs, folder).thumbnail == ThumbnailPath(folder)
    ensures FindFirstVideoSegment(fs, folder) == Some(PlanFor(processed, fs, folder).segment)
  {
  }

  /**
   * Without a segment the set is unchanged, so the same folder is planned again on the
   * next call, while once it joins the set every later call skips it.
   */
  lemma RetryUntilDone(processed: set<Path>, fs: Fs, folder: Path, generated: bool, later: Fs)
    ensures PlanFor(processed, fs, folder) == NoSegmentYet ==>
      ProcessedAfter(processed, fs, folder, generated) == processed
      && PlanFor(ProcessedAfter(processed, fs, folder, generated), later, folder) == PlanFor(processed, later, folder)
    ensures folder in ProcessedAfter(processed, fs, folder, generated) ==>
      PlanFor(ProcessedAfter(processed, fs, folder, generated), later, folder) == AlreadyProcessed
  {
  }

  // ---------------------------------------------------------------- startup scan

  /**
   * The folders `scanExistingFolders` hands to `processMovieFolder`: the directory
   * entries in listing order, up to the first entry whose `statSync` throws, which
   * ends the scan.
   */
  function DirectoryTargets(fs: Fs, root: Path, names: seq<string>): seq<Path> {
    if names == [] then []
    else
      var p := Join(root, names[0]);
      match IsDirectory(fs, p) {
        case None => []
        case Some(isDir) => (if isDir then [p] else []) + DirectoryTargets(fs, root, names[1..])
      }
  }

  function ScanTargets(fs: Fs, root: Path): seq<Path> {
    match ReadDir(fs, root) {
      case None => []
      case Some(names) => DirectoryTargets(fs, root, names)
    }
  }

  /** The set after processing `folders` one after another. */
  function ProcessAll(processed: set<Path>, fs: Fs, folders: seq<Path>, screenshotOk: set<Path>): set<Path> {
    if folders == [] then processed
    else
      var last := folders[|folders| - 1];
      ProcessedAfter(ProcessAll(processed, fs, folders[..|folders| - 1], screenshotOk), fs, last, last in screenshotOk)
  }

  /** Every scanned folder is a directory entry of the root. */
  lemma {:induction false} DirectoryTargetsAreDirectories(fs: Fs, root: Path, names: seq<string>)
    ensures forall p :: p in DirectoryTargets(fs, root, names) ==>
      IsDirectory(fs, p) == Some(true) && exists n :: n in names && p == Join(root, n)
  {
    if names != [] {
      DirectoryTargetsAreDirectories(fs, root, names[1..]);
      forall p | p in DirectoryTargets(fs, root, names[1..])
        ensures exists n :: n in names && p == Join(root, n)
      {
        var n :| n in names[1..] && p == Join(root, n);
        assert n in names;
      }
    }
  }

  /** Up to a vanished entry, every directory entry is scanned. */
  lemma {:induction false} DirectoryTargetsCover(fs: Fs, root: Path, names: seq<string>, i: nat)
    requires i < |names| && IsDirectory(fs, Join(root, names[i])) == Some(true)
    requires forall k :: 0 <= k < i ==> IsDirectory(fs, Join(root, names[k])).Some?
    ensures Join(root, names[i]) in DirectoryTargets(fs, root, names)
  {
    if i > 0 {
      DirectoryTargetsCover(fs, root, names[1..], i - 1);
    }
  }

  /** An entry whose `statSync` throws ends the scan: nothing after it is processed. */
  lemma {:induction false} ScanStopsAtVanishedEntry(fs: Fs, root: Path, names: seq<string>, i: nat)
    requires i < |names| && IsDirectory(fs, Join(root, names[i])).None?
    ensures DirectoryTargets(fs, root, names) == DirectoryTargets(fs, root, names[..i])
  {
    if i > 0 {
      ScanStopsAtVanishedEntry(fs, root, names[1..], i - 1);
      assert names[..i][1..] == names[1..][..i - 1];
    }
  }

  /** Processing a sequence of folders never removes a folder and adds only those folders. */
  lemma {:induction false} ProcessAllGrows(processed: set<Path>, fs: Fs, folders: seq<Path>, screenshotOk: set<Path>)
    ensures processed <= ProcessAll(processed, fs, folders, screenshotOk)
    ensures forall p :: p in ProcessAll(processed, fs, folders, screenshotOk) ==> p in processed || p in folders
  {
    if folders != [] {
      var init, last := folders[..|folders| - 1], folders[|folders| - 1];
      ProcessAllGrows(processed, fs, init, screenshotOk);
      ProcessedOnlyGrows(ProcessAll(processed, fs, init, screenshotOk), fs, last, last in screenshotOk);
    }
  }

  /** A segment `add` event taken as a package's first segment: a `.ts` path mentioning `segment_001.ts` or `segment_000.ts`. */
  predicate IsFirstSegmentEvent(filePath: Path) {
    EndsWith(filePath, ".ts") && (Contains(filePath, "segment_001.ts") || Contains(filePath, "segment_000.ts"))
  }

  /** The `addDir` filter: a direct child of the root, not the root itself. */
  predicate IsNewMovieFolder(root: Path, dirPath: Path) {
    !(dirPath == root || Dirname(dirPath) != root)
  }

  /** The folder a segment `add` event processes, two levels above the segment. */
  function SegmentEventFolder(filePath: Path): Option<Path> {
    if IsFirstSegmentEvent(filePath) then Some(Dirname(Dirname(filePath))) else None
  }

  /** A folder created directly in the root passes the `addDir` filter. */
  lemma DirectChildIsNewMovie(root: Path, name: string)
    requires IsPlainDir(root) && IsSegment(name)
    ensures IsNewMovieFolder(root, Join(root, name))
  {
    DirnameOfJoin(root, name);
  }

  /** The root itself and anything deeper than one level (such as a rendition folder) are filtered out. */
  lemma NestedDirIsNotNewMovie(root: Path, movie: string, name: string)
    requires IsPlainDir(root) && IsSegment(movie) && IsSegment(name)
    ensures !IsNewMovieFolder(root, root)
    ensures !IsNewMovieFolder(root, Join(Join(root, movie), name))
  {
    DirnameOfJoin(Join(root, movie), name);
  }

  lemma FirstSegmentNames(n: nat)
    requires n <= 1
    ensures SegmentName(n) == if n == 0 then "segment_000.ts" else "segment_001.ts"
  {
  }

  /** A `.ts` path that ends in one of the two first-segment names is taken as a first segment. */
  lemma EndingIsFirstSegmentEvent(p: Path, tail: string)
    requires tail == "segment_000.ts" || tail == "segment_001.ts"
    requires EndsWith(p, tail)
    ensures IsFirstSegmentEvent(p)
  {
    ContainsSuffix(p, tail);
    assert p[|p| - 3..] == tail[|tail| - 3..];
  }

  /** The path of segment 0 or 1 in any folder is taken as a first segment. */
  lemma FirstSegmentPathIsEvent(dir: Path, n: nat)
    requires n <= 1
    ensures IsSegment(SegmentName(n))
    ensures IsFirstSegmentEvent(Join(dir, SegmentName(n)))
  {
    FirstSegmentNames(n);
    var tail := SegmentName(n);
    var p := Join(dir, tail);
    assert p[|p| - |tail|..] == tail;
    EndingIsFirstSegmentEvent(p, tail);
  }

  /** The first segment of a package's 480p rendition leads to that package's folder. */
  lemma FirstSegmentTargetsMovie(root: Path, movie: string, n: nat)
    requires IsPlainDir(root) && IsSegment(movie)
    requires n <= 1
    ensures SegmentEventFolder(Join(Join(Join(root, movie), "480p"), SegmentName(n))) == Some(Join(root, movie))
  {
    var dir := Join(Join(root, movie), "480p");
    FirstSegmentPathIsEvent(dir, n);
    DirnameOfJoin(dir, SegmentName(n));
    DirnameOfJoin(Join(root, movie), "480p");
  }

  // ---------------------------------------------------------------- the generator's state

  /** The generator's module state: the folders already dealt with. */
  class ThumbnailWatcher {
    var processedFolders: set<Path>

    constructor ()
      ensures processedFolders == {}
    {
      processedFolders := {};
    }

    /** `processMovieFolder(folder)`, with the outcome of the screenshot as `generated`. */
    method ProcessMovieFolder(fs: Fs, folder: Path, generated: bool) returns (step: Step)
      modifies this
      ensures step == PlanFor(old(processedFolders), fs, folder)
      ensures processedFolders == ProcessedAfter(old(processedFolders), fs, folder, generated)
    {
      if folder in processedFolders {
        return AlreadyProcessed;
      }
      var thumbnail := ThumbnailPath(folder);
      if Exists(fs, thumbnail) {
        processedFolders := processedFolders + {folder};
        return ThumbnailExists;
      }
      var segment := FindFirstVideoSegment(fs, folder);
      if segment.None? {
        return NoSegmentYet;
      }
      step := Generate(segment.value, thumbnail);
      if generated {
        processedFolders := processedFolders + {folder};
      }
    }

    /**
     * `scanExistingFolders(root)`: processes every directory entry of the root in
     * listing order, stopping at an entry that vanished before its `statSync`.
     */
    method ScanExistingFolders(fs: Fs, root: Path, screenshotOk: set<Path>) returns (calls: seq<Path>)
      modifies this
      ensures calls == ScanTargets(fs, root)
      ensures processedFolders == ProcessAll(old(processedFolders), fs, calls, screenshotOk)
    {
      calls := [];
      var listing := ReadDir(fs, root);
      if listing.None? {
        return;
      }
      var names := listing.value;
      var i := 0;
      while i < |names|
        invariant 0 <= i <= |names|
        invariant calls + DirectoryTargets(fs, root, names[i..]) == DirectoryTargets(fs, root, names)
        invariant processedFolders == ProcessAll(old(processedFolders), fs, calls, screenshotOk)
      {
        var folderPath := Join(root, names[i]);
        var stats := IsDirectory(fs, folderPath);
        if stats.None? {
          assert DirectoryTargets(fs, root, names[i..]) == [];
          return;
        }
        assert names[i..][1..] == names[i + 1..];
        if stats.value {
          var _ := ProcessMovieFolder(fs, folderPath, folderPath in screenshotOk);
          assert (calls + [folderPath])[..|calls|] == calls;
          calls := calls + [folderPath];
        }
        i := i + 1;
      }
      assert names[i..] == [];
    }

    /** The `addDir` handler: new movie folders are processed, everything else ignored. */
    method OnAddDir(fs: Fs, root: Path, dirPath: Path, generated: bool)
      modifies this
      ensures processedFolders ==
        if IsNewMovieFolder(root, dirPath) then ProcessedAfter(old(processedFolders), fs, dirPath, generated)
        else old(processedFolders)
    {
      if dirPath == root || Dirname(dirPath) != root {
        return;
      }
      var _ := ProcessMovieFolder(fs, dirPath, generated);
    }

    /** The segment watcher's `add` handler. */
    method OnSegmentAdd(fs: Fs, filePath: Path, generated: bool)
      modifies this
      ensures processedFolders ==
        match SegmentEventFolder(filePath) {
          case None => old(processedFolders)
          case Some(folder) => ProcessedAfter(old(processedFolders), fs, folder, generated)
        }
    {
      if !EndsWith(filePath, ".ts") {
        return;
      }
      var movieFolderPath := Dirname(Dirname(filePath));
      if Contains(filePath, "segment_001.ts") || Contains(filePath, "segment_000.ts") {
        var _ := ProcessMovieFolder(fs, movieFolderPath, generated);
      }
    }
  }
}
