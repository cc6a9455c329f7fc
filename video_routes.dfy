/**
 * The two read-only routes of the video API: `GET /videos`, which lists the packages
 * in the output root, and `GET /videos/:id`, which describes one package and the
 * renditions present in it. Only the mapping from the filesystem to the JSON reply
 * is modelled; the reply is either a JSON body or a status with an error message.
 */
module VideoRoutes {
  import opened Wrappers
  import opened NodePath
  import opened FileSystem

  /** An entry of the listing. */
  datatype VideoRecord = VideoRecord(id: string, name: string, thumbnail: string, url: string)

  /** The detail reply: the listing's fields plus the renditions present. */
  datatype VideoDetail = VideoDetail(id: string, name: string, thumbnail: string, url: string, resolutions: seq<string>)

  datatype Reply<T> = Json(body: T) | Error(status: nat, message: string)

  function ThumbnailUrl(folder: string): string {
    "/videos/" + folder + "/thumbnail.jpg"
  }

  function MasterUrl(folder: string): string {
    "/videos/" + folder + "/master.m3u8"
  }

  function RecordFor(folder: string): VideoRecord {
    VideoRecord(folder, folder, ThumbnailUrl(folder), MasterUrl(folder))
  }

  /** `idx` picks the entries of `sub` out of `full`, at increasing positions. */
  predicate IsIndexing(idx: seq<nat>, sub: seq<string>, full: seq<string>) {
    |idx| == |sub|
    && (forall i :: 0 <= i < |idx| ==> idx[i] < |full| && sub[i] == full[idx[i]])
    && (forall i, j :: 0 <= i < j < |idx| ==> idx[i] < idx[j])
  }

  /** `sub` is `full` with some entries left out and the rest in their order. */
  ghost predicate IsSubsequence(sub: seq<string>, full: seq<string>) {
    exists idx :: IsIndexing(idx, sub, full)
  }

  /** Putting an entry in front of both keeps a subsequence, whether or not `sub` takes it. */
  lemma SubsequenceCons(x: string, take: bool, sub: seq<string>, full: seq<string>)
    requires IsSubsequence(sub, full)
    ensures IsSubsequence((if take then [x] else []) + sub, [x] + full)
  {
    var idx :| IsIndexing(idx, sub, full);
    var shifted: seq<nat> := seq(|idx|, k requires 0 <= k < |idx| => idx[k] + 1);
    var idx2: seq<nat> := (if take then [0] else []) + shifted;
    assert IsIndexing(idx2, (if take then [x] else []) + sub, [x] + full);
  }

  /** Putting an entry behind both keeps a subsequence, whether or not `sub` takes it. */
  lemma SubsequenceSnoc(sub: seq<string>, full: seq<string>, x: string, take: bool)
    requires IsSubsequence(sub, full)
    ensures IsSubsequence(sub + (if take then [x] else []), full + [x])
  {
    var idx :| IsIndexing(idx, sub, full);
    var last: nat := |full|;
    var more: seq<nat> := if take then [last] else [];
    var idx2 := idx + more;
    var sub2, full2 := sub + (if take then [x] else []), full + [x];
    assert forall i :: 0 <= i < |idx| ==> idx2[i] == idx[i] && sub2[i] == sub[i] && full2[idx[i]] == full[idx[i]];
    assert IsIndexing(idx2, sub2, full2);
  }

  // ---------------------------------------------------------------- GET /videos

  /**
   * The entries the listing's `filter` keeps, in listing order: those whose
   * `statSync` says directory. `None` when a `statSync` throws.
   */
  function DirectoryFolders(fs: Fs, root: Path, names: seq<string>): Option<seq<string>> {
    if names == [] then Some([])
    else match IsDirectory(fs, Join(root, names[0])) {
      case None => None
      case Some(isDir) =>
        match DirectoryFolders(fs, root, names[1..]) {
          case None => None
          case Some(rest) => Some((if isDir then [names[0]] else []) + rest)
        }
    }
  }

  /** `GET /videos`: a record per package folder, or status 500 when anything throws. */
  function ListVideos(fs: Fs, root: Path): Reply<seq<VideoRecord>> {
    match ReadDir(fs, root) {
      case None => Error(500, "Failed to get videos")
      case Some(names) =>
        match DirectoryFolders(fs, root, names) {
          case None => Error(500, "Failed to get videos")
          case Some(folders) => Json(seq(|folders|, k requires 0 <= k < |folders| => RecordFor(folders[k])))
        }
    }
  }

  /** One step of the filter: the first entry, if a directory, before the rest's folders. */
  lemma DirectoryFoldersStep(fs: Fs, root: Path, names: seq<string>)
    requires names != []
    ensures DirectoryFolders(fs, root, names).Some? <==>
      IsDirectory(fs, Join(root, names[0])).Some? && DirectoryFolders(fs, root, names[1..]).Some?
    ensures DirectoryFolders(fs, root, names).Some? ==>
      DirectoryFolders(fs, root, names).value ==
        (if IsDirectory(fs, Join(root, names[0])) == Some(true) then [names[0]] else [])
        + DirectoryFolders(fs, root, names[1..]).value
  {
  }

  /** The filter succeeds exactly when every entry can be stat'ed. */
  lemma {:induction false} DirectoryFoldersDefined(fs: Fs, root: Path, names: seq<string>)
    ensures DirectoryFolders(fs, root, names).Some? <==>
      forall n :: n in names ==> IsDirectory(fs, Join(root, n)).Some?
  {
    if names != [] {
      DirectoryFoldersDefined(fs, root, names[1..]);
      DirectoryFoldersStep(fs, root, names);
      assert forall n :: n in names <==> n == names[0] || n in names[1..];
    }
  }

  /** When it succeeds, the filter keeps exactly the directory entries. */
  lemma {:induction false} DirectoryFoldersMembers(fs: Fs, root: Path, names: seq<string>)
    requires DirectoryFolders(fs, root, names).Some?
    ensures forall n :: n in DirectoryFolders(fs, root, names).value <==>
      n in names && IsDirectory(fs, Join(root, n)) == Some(true)
  {
    if names != [] {
      DirectoryFoldersStep(fs, root, names);
      DirectoryFoldersMembers(fs, root, names[1..]);
      assert forall n :: n in names <==> n == names[0] || n in names[1..];
    }
  }

  /** The filter keeps the listing order. */
  lemma {:induction false} DirectoryFoldersInOrder(fs: Fs, root: Path, names: seq<string>)
    requires DirectoryFolders(fs, root, names).Some?
    ensures IsSubsequence(DirectoryFolders(fs, root, names).value, names)
  {
    if names == [] {
      assert IsIndexing([], [], names);
    } else {
      var rest := names[1..];
      DirectoryFoldersStep(fs, root, names);
      DirectoryFoldersInOrder(fs, root, rest);
      SubsequenceCons(names[0], IsDirectory(fs, Join(root, names[0])) == Some(true), DirectoryFolders(fs, root, rest).value, rest);
      assert [names[0]] + rest == names;
    }
  }

  /**
   * The listing has one record per directory entry of the root and none for plain
   * files, in listing order; each record is named after its folder and points at its
   * thumbnail and master playlist. It fails with status 500 exactly when the root
   * cannot be listed or an entry cannot be stat'ed.
   */
  lemma ListVideosSpec(fs: Fs, root: Path)
    ensures ListVideos(fs, root).Error? <==>
      ReadDir(fs, root).None? || exists n :: n in ReadDir(fs, root).value && IsDirectory(fs, Join(root, n)).None?
    ensures ListVideos(fs, root).Error? ==> ListVideos(fs, root) == Error(500, "Failed to get videos")
    ensures ListVideos(fs, root).Json? ==>
      var records := ListVideos(fs, root).body;
      var names := ReadDir(fs, root).value;
      (forall k :: 0 <= k < |records| ==>
        records[k].name == records[k].id
        && records[k].thumbnail == "/videos/" + records[k].id + "/thumbnail.jpg"
        && records[k].url == "/videos/" + records[k].id + "/master.m3u8")
      && (forall n :: n in names ==>
        ((exists k :: 0 <= k < |records| && records[k].id == n) <==> IsDirectory(fs, Join(root, n)) == Some(true)))
      && IsSubsequence(seq(|records|, k requires 0 <= k < |records| => records[k].id), names)
  {
    if ReadDir(fs, root).Some? {
      var names := ReadDir(fs, root).value;
      DirectoryFoldersDefined(fs, root, names);
      if DirectoryFolders(fs, root, names).Some? {
        DirectoryFoldersMembers(fs, root, names);
        DirectoryFoldersInOrder(fs, root, names);
        var folders := DirectoryFolders(fs, root, names).value;
        var records := ListVideos(fs, root).body;
        assert forall k :: 0 <= k < |records| ==> records[k].id == folders[k];
        assert seq(|records|, k requires 0 <= k < |records| => records[k].id) == folders;
        forall n | n in names
          ensures (exists k :: 0 <= k < |records| && records[k].id == n) <==> IsDirectory(fs, Join(root, n)) == Some(true)
        {
          if IsDirectory(fs, Join(root, n)) == Some(true) {
            var k :| 0 <= k < |folders| && folders[k] == n;
            assert records[k].id == n;
          }
        }
      }
    }
  }

  // ---------------------------------------------------------------- GET /videos/:id

  /** The rendition folders the detail route looks for, in this order. */
  const DetailResolutions: seq<string> := ["480p", "720p", "1080p"]

  /** The position of a rendition folder in `DetailResolutions`. */
  function Rank(r: string): nat {
    if r == "480p" then 0 else if r == "720p" then 1 else 2
  }

  /** The names of `candidates` whose folder exists under `dir`, in order. */
  function Available(fs: Fs, dir: Path, candidates: seq<string>): seq<string> {
    if candidates == [] then []
    else
      var init := Available(fs, dir, candidates[..|candidates| - 1]);
      var r := candidates[|candidates| - 1];
      if Exists(fs, Join(dir, r)) then init + [r] else init
  }

  function DetailFor(fs: Fs, root: Path, videoId: string): VideoDetail {
    VideoDetail(videoId, videoId, ThumbnailUrl(videoId), MasterUrl(videoId),
      ["original"] + Available(fs, Join(root, videoId), DetailResolutions))
  }

  /** A rendition is reported exactly when its folder exists, whether or not it holds a playlist. */
  lemma {:induction false} AvailableMembers(fs: Fs, dir: Path, candidates: seq<string>)
    ensures forall r :: r in Available(fs, dir, candidates) <==> r in candidates && Exists(fs, Join(dir, r))
  {
    if candidates != [] {
      var init := candidates[..|candidates| - 1];
      AvailableMembers(fs, dir, init);
      assert candidates == init + [candidates[|candidates| - 1]];
    }
  }

  /** The reported renditions keep the candidates' order. */
  lemma {:induction false} AvailableInOrder(fs: Fs, dir: Path, candidates: seq<string>)
    ensures IsSubsequence(Available(fs, dir, candidates), candidates)
  {
    if candidates == [] {
      assert IsIndexing([], [], candidates);
    } else {
      var init := candidates[..|candidates| - 1];
      var r := candidates[|candidates| - 1];
      AvailableInOrder(fs, dir, init);
      SubsequenceSnoc(Available(fs, dir, init), init, r, Exists(fs, Join(dir, r)));
      assert init + [r] == candidates;
      assert Available(fs, dir, candidates) == Available(fs, dir, init) + (if Exists(fs, Join(dir, r)) then [r] else []);
    }
  }

  /** The renditions found under a package folder come strictly in the order 480p, 720p, 1080p. */
  lemma AvailableRanked(fs: Fs, dir: Path)
    ensures forall i, j :: 0 <= i < j < |Available(fs, dir, DetailResolutions)| ==>
      Rank(Available(fs, dir, DetailResolutions)[i]) < Rank(Available(fs, dir, DetailResolutions)[j])
  {
    AvailableInOrder(fs, dir, DetailResolutions);
    var av := Available(fs, dir, DetailResolutions);
    var idx :| IsIndexing(idx, av, DetailResolutions);
    forall i, j | 0 <= i < j < |av|
      ensures Rank(av[i]) < Rank(av[j])
    {
      assert Rank(DetailResolutions[idx[i]]) == idx[i] && Rank(DetailResolutions[idx[j]]) == idx[j];
    }
  }

  /**
   * The detail's `resolutions` starts with `original`, then lists each rendition whose
   * folder exists, strictly in the order 480p, 720p, 1080p, so none twice.
   */
  lemma DetailResolutionsSpec(fs: Fs, root: Path, videoId: string)
    ensures var rs := DetailFor(fs, root, videoId).resolutions;
      |rs| >= 1 && rs[0] == "original"
      && (forall r :: r in rs[1..] <==> r in DetailResolutions && Exists(fs, Join(Join(root, videoId), r)))
      && (forall i, j :: 1 <= i < j < |rs| ==> Rank(rs[i]) < Rank(rs[j]))
  {
    var dir := Join(root, videoId);
    var av := Available(fs, dir, DetailResolutions);
    AvailableMembers(fs, dir, DetailResolutions);
    AvailableRanked(fs, dir);
    var rs := DetailFor(fs, root, videoId).resolutions;
    assert rs[1..] == av;
    assert forall i :: 1 <= i < |rs| ==> rs[i] == av[i - 1];
  }

  /**
   * `GET /videos/:id`: 404 when the package folder does not exist, otherwise the
   * detail, with `resolutions` built up by the loop over the three rendition folders.
   */
  method GetVideo(fs: Fs, root: Path, videoId: string) returns (reply: Reply<VideoDetail>)
    ensures !Exists(fs, Join(root, videoId)) ==> reply == Error(404, "Video not found")
    ensures Exists(fs, Join(root, videoId)) ==> reply == Json(DetailFor(fs, root, videoId))
  {
    var videoPath := Join(root, videoId);
    if !Exists(fs, videoPath) {
      return Error(404, "Video not found");
    }
    var resolutions := ["original"];
    var candidates := DetailResolutions;
    for i := 0 to |candidates|
      invariant resolutions == ["original"] + Available(fs, videoPath, candidates[..i])
    {
      assert candidates[..i + 1][..i] == candidates[..i];
      if Exists(fs, Join(videoPath, candidates[i])) {
        resolutions := resolutions + [candidates[i]];
      }
    }
    assert candidates[..|candidates|] == candidates;
    reply := Json(VideoDetail(videoId, videoId, ThumbnailUrl(videoId), MasterUrl(videoId), resolutions));
  }
}
