/**
 * How the transcoder's output looks to the detail route. The transcoder only asks
 * `existsSync` and creates paths, so the paths it sees are the `paths` of an `Fs`;
 * the filesystem a run leaves behind is handed to `GET /videos/:id` as such.
 */
module Pipeline {
  import opened NodePath
  import opened FileSystem
  import opened Transcoder
  import opened VideoRoutes

  /** The filesystem `fs` with its existing paths replaced by `paths`. */
  function WithPaths(fs: Fs, paths: set<Path>): Fs {
    Fs(paths, fs.dirs, fs.listings)
  }

  /**
   * After `generateAdaptiveBitrateVersions`, whatever its encoders did, the detail
   * route reports all three renditions: a rendition directory is created before its
   * encoder runs, and the route looks only for the directory. So a rendition whose
   * encode failed is still reported. The skipped renditions are assumed to sit in
   * their directory, as a playlist on disk does.
   */
  lemma DetailReportsEveryRendition(fs: Fs, root: Path, fileName: string, events: seq<EncodeEvent>)
    requires IsCompletionOrder(events, Launched(fs.paths, root, fileName))
    requires forall r :: r in Ladder && IsResolutionTranscoded(fs.paths, root, fileName, r.name) ==>
      RenditionDir(root, fileName, r.name) in fs.paths
    ensures DetailFor(WithPaths(fs, ExistingAfter(fs.paths, root, fileName, events)), root, fileName).resolutions
         == ["original", "480p", "720p", "1080p"]
  {
    var after := WithPaths(fs, ExistingAfter(fs.paths, root, fileName, events));
    SkippedAndLaunchedPartitionLadder(fs.paths, root, fileName);
    SelectMembers(Ladder, fs.paths, root, fileName, true);
    RenditionPathsMembers(Launched(fs.paths, root, fileName), root, fileName);
    forall r | r in Ladder
      ensures Exists(after, Join(Join(root, fileName), r.name))
    {
      assert RenditionDir(root, fileName, r.name) == Join(Join(root, fileName), r.name);
    }
    assert Ladder[0] in Ladder && Ladder[1] in Ladder && Ladder[2] in Ladder;
    var dir := Join(root, fileName);
    assert Exists(after, Join(dir, "480p")) && Exists(after, Join(dir, "720p")) && Exists(after, Join(dir, "1080p"));
    assert ["480p"][..0] == [] && ["480p", "720p"][..1] == ["480p"];
    assert DetailResolutions[..2] == ["480p", "720p"];
    assert Available(after, dir, ["480p"]) == ["480p"];
    assert Available(after, dir, ["480p", "720p"]) == ["480p", "720p"];
    assert Available(after, dir, DetailResolutions) == ["480p", "720p", "1080p"];
  }
}
