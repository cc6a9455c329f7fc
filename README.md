# Lex-server media pipeline, modelled in Dafny

Lex-server turns video files dropped in a source folder into HLS packages and
serves them. Four pieces make up that pipeline, and this project models each one:

- **The source watcher** (`utils/fileWatcher.js`, module `SourceWatcher`).
  - It ignores every path with a component that starts with a dot followed by a
    character other than a line terminator. A component is the start of the path
    or what follows a `/` or a `\`. A trailing `videos/.` is therefore watched.
  - For each `add` event whose extension is one of `.mp4 .mkv .avi .mov .wmv`, in
    any letter case, it calls `transcodeVideo`.
- **The transcoder** (`controllers/transcoder.js`, module `Transcoder`).
  - A package lives at `<root>/<stem>`.
  - `isVideoAlreadyTranscoded` asks for `master.m3u8` plus the playlists of 480p,
    720p and 1080p.
  - The transcoder launches a full-resolution encode. Only when that encode ends
    does it run `generateAdaptiveBitrateVersions`.
  - That function lists the renditions already present in a shared master
    playlist, gives every other rendition its directory and an encoder, and
    rewrites the whole master every time one of those encoders ends.
  - The class `AdaptiveBitrateJob` is that shared state. Its methods are the
    synchronous skip pass and the encoders' `end` and `error` callbacks.
  - `GenerateAdaptiveBitrateVersions` and `TranscodeVideo` run a job against a
    given order of encoder completions.
- **The thumbnail generator** (`utils/thumbnailGenerator.js`, module
  `Thumbnails`).
  - The class `ThumbnailWatcher` holds the module's `processedFolders` set.
  - `processMovieFolder` takes a screenshot of the first `segment_03*.ts` of the
    package's 480p folder. A folder enters the set once its thumbnail exists or
    has been produced.
  - The model also covers the startup scan of the output root and the `addDir`
    and segment `add` filters of the two watchers.
- **The read-only routes** (`routes/videos.js`, module `VideoRoutes`).
  - `GET /videos` returns one record per package folder, or 500.
  - `GET /videos/:id` returns 404 when the package is missing. Otherwise it
    returns the record plus `resolutions`, which is `original` followed by the
    rendition folders present.

Supporting modules model the JavaScript and Node behaviour the code relies on:

- `Text`: string helpers, `join("\n")` and splitting at newlines, and
  lower-casing of the ASCII capitals and U+212A.
- `JsNumber`: `parseInt` exactly as ECMAScript defines it for strings, and the
  printing of integers. A bitrate that reads as NaN gives the bandwidth text
  `NaN`, as `NaN * 1000` prints in a template literal.
- `NodePath`: posix `basename`, `extname`, `dirname`, and `join` on plain
  segments.
- `FileSystem`: the existence, listing and `stat` queries, each of which may fail.

The filesystem is a value. Each encoder run and each screenshot is opaque: the
model takes its outcome as a parameter.

The transcoder only calls `existsSync` and creates paths, so it works on the set
of existing paths, which is the `paths` field of an `Fs`. The other modules also
list directories and `stat` entries, so they take the whole `Fs`. Module
`Pipeline` hands a run's result, as `Fs` with the new paths, to the detail route.

Properties proved:

- **Rendition bookkeeping.**
  - Every rendition is listed in the master at most once.
  - The skipped renditions come first, then the ended ones in completion order.
  - A failed encode is never listed.
  - There is exactly one full rewrite of the master per successful encode.
- **Reruns.**
  - Once every launched encoder has ended, a rerun of `transcodeVideo` is skipped,
    provided at least one encoder was launched or a master already existed.
  - A package whose three renditions exist but whose master does not never gets
    a master. Every later `transcodeVideo` therefore starts over.
- **Thumbnails.**
  - The finder accepts exactly segments 30 to 39. The segment watcher reacts only
    to segments 000 and 001, so that trigger finds nothing while a rendition holds
    fewer than 30 segments. The folder then waits for the next startup scan.
- **Routes.** The listing and the detail replies are characterised exactly,
  including their error statuses. After the rendition work, the detail route
  reports all three renditions, even one whose encode failed: it looks only for
  the rendition directory, which exists before the encoder runs.

## Model

| member | source | states |
|---|---|---|
| `SourceWatcher.IgnoredIff` | utils/fileWatcher.js:15 | the `ignored` pattern matches exactly when some path component (the first, or one after `/` or `\`) starts with a dot followed by a non-line-end character |
| `SourceWatcher.DotComponentIgnored` | utils/fileWatcher.js:15 | a dot-file or anything inside a dot-folder is ignored, wherever it lies |
| `SourceWatcher.VisiblePathNotIgnored` | utils/fileWatcher.js:15 | a path none of whose components starts with a dot is watched |
| `SourceWatcher.TranscodeCallsMembers` | utils/fileWatcher.js:20-26 | a path is handed to `transcodeVideo` exactly when one of its `add` events is watched and has a supported extension |
| `SourceWatcher.TranscodeCallsAppend` | utils/fileWatcher.js:20-26 | events are handled independently: the calls for two runs of events are the concatenation of each run's calls |
| `SourceWatcher.OneCallPerEvent` | utils/fileWatcher.js:20-26 | an accepted event gives exactly one call with its path unchanged; any other event gives none |
| `SourceWatcher.Filter` | utils/fileWatcher.js:22-25 | the handler never produces more calls than events |
| `SourceWatcher.SupportedInAnyCase` | utils/fileWatcher.js:21-22 | `dir/stem.x` is accepted exactly when `.x` in lower case is one of the five supported formats |
| `SourceWatcher.UpperCaseMovIsSupported` | utils/fileWatcher.js:21-22 | `clip.MOV` is accepted, since the extension is lower-cased first |
| `SourceWatcher.KelvinSignMkvIsSupported` | utils/fileWatcher.js:21-22 | `clip.M\u212AV`, with the Kelvin sign that `toLowerCase` turns into `k`, is accepted as `.mkv` |
| `SourceWatcher.NoExtensionNotSupported` | utils/fileWatcher.js:21-22 | a file name without a dot is never transcoded |
| `NodePath.StemOfJoin` | controllers/transcoder.js:37-38 | the package folder of `dir/stem.x` is named `stem` whatever the extension, so `movie.mp4` and `movie.mkv` share one package |
| `Transcoder.IsVideoAlreadyTranscodedIff` | controllers/transcoder.js:13-28 | a package counts as done exactly when its master and the 480p, 720p and 1080p playlists all exist |
| `Transcoder.AllResolutionsTranscodedIff` | controllers/transcoder.js:21-23 | `every` over the resolution names holds exactly when each name's playlist exists |
| `Transcoder.AlreadyTranscodedReadsOnlyMarkers` | controllers/transcoder.js:13-34 | the completion check depends on those four paths only: filesystems agreeing on them get the same answer |
| `Transcoder.StreamInf480` | controllers/transcoder.js:112-116 | the 480p stream line advertises BANDWIDTH=1000000 and RESOLUTION=480p |
| `Transcoder.StreamInf720` | controllers/transcoder.js:112-116 | the 720p stream line advertises BANDWIDTH=2500000 and RESOLUTION=720p |
| `Transcoder.StreamInf1080` | controllers/transcoder.js:112-116 | the 1080p stream line advertises BANDWIDTH=5000000 and RESOLUTION=1080p |
| `Transcoder.StreamInfHasNoNewline` | controllers/transcoder.js:147-151 | a stream line never contains a newline, whatever the bitrate text parses to |
| `Transcoder.MasterLinesHaveNoNewline` | controllers/transcoder.js:97-103 | no line of a master contains a newline, given rendition names without one |
| `Transcoder.MasterTextReadsBack` | controllers/transcoder.js:155-158 | splitting the written master text at newlines gives back exactly the lines in `masterPlaylist` |
| `Transcoder.MasterTextStartsWithHeader` | controllers/transcoder.js:97-103 | every master begins with `#EXTM3U`, `#EXT-X-VERSION:3` and the full-resolution entry, followed by a newline when any rendition is listed |
| `Transcoder.EntriesAt` | controllers/transcoder.js:147-152 | each listed rendition contributes exactly its stream line and then its playlist line, in list order |
| `Transcoder.MasterListsUriIff` | controllers/transcoder.js:117 | for ladder renditions, the master mentions a rendition's playlist exactly when that rendition is listed |
| `Transcoder.SkippedAndLaunchedPartitionLadder` | controllers/transcoder.js:106-125 | the skip pass puts every rung in exactly one of two lists: listed at once, or given an encoder; neither list repeats a rung |
| `Transcoder.SelectMembers` | controllers/transcoder.js:107 | a rung is selected exactly when the presence of its playlist matches the branch being selected |
| `Transcoder.SelectIgnoresOtherPaths` | controllers/transcoder.js:107 | paths other than the rendition playlists never change which rungs are skipped or launched |
| `Transcoder.EndedMembers` | controllers/transcoder.js:143-165 | the ended renditions are exactly those with an `end` event; distinct completions give a list without repeats |
| `Transcoder.WritesOfAt` | controllers/transcoder.js:155-158 | the k-th write of `master.m3u8` lists the skipped renditions followed by the first k+1 completions |
| `Transcoder.AdaptiveBitrateJob.constructor` | controllers/transcoder.js:96-103 | a job starts with the four header lines, no running encoders, no launches and no writes |
| `Transcoder.AdaptiveBitrateJob.SkipPass` | controllers/transcoder.js:106-167 | after the synchronous `forEach`, the master lists the already-transcoded rungs in ladder order; the others run, launched in ladder order, each with its directory created; nothing has been written |
| `Transcoder.AdaptiveBitrateJob.SkipRung` | controllers/transcoder.js:107-141 | one rung of the `forEach` either appends its entry to the master, or creates its directory and launches its encoder, keeping the skip-pass state |
| `Transcoder.AdaptiveBitrateJob.OnEncodeEnd` | controllers/transcoder.js:143-159 | an `end` appends the rendition's two lines, rewrites the whole master, and leaves the playlist and the master on disk; the job invariant is kept |
| `Transcoder.AdaptiveBitrateJob.OnEncodeError` | controllers/transcoder.js:160-165 | an `error` changes nothing but the set of running encoders |
| `Transcoder.GenerateAdaptiveBitrateVersions` | controllers/transcoder.js:88-168 | for any order of completions: the master lists the skipped renditions and then the ended ones; one encoder is launched per missing rung; one full write is made per success; the filesystem gains exactly the rendition directories, the ended playlists and the master |
| `Transcoder.TranscodeVideo` | controllers/transcoder.js:36-86 | a finished package is left alone; otherwise the package folder is created under the file's stem and the full-resolution encode launched; when it ends, the rendition work follows |
| `Transcoder.BaseWorkKeepsSelection` | controllers/transcoder.js:46-50 | creating the package folder and the full-resolution playlist does not change which renditions are skipped |
| `Transcoder.ListedOnce` | controllers/transcoder.js:106-159 | no rendition is listed twice; a listed rendition was found on disk or encoded successfully; a failed encode is never listed |
| `Transcoder.RerunSkipsAfterFullSuccess` | controllers/transcoder.js:13-28 | once every launched encoder has ended, provided a master exists, the package passes `isVideoAlreadyTranscoded` |
| `Transcoder.MissingMasterNeverWritten` | controllers/transcoder.js:106-159 | with all three renditions present and no master, nothing is launched and the master is never written, so the package never passes the check |
| `JsNumber.ParseIntReadsLeadingNumeral` | controllers/transcoder.js:113-115 | `parseInt` reads back a printed natural number followed by text that does not continue it, so `"1000k"` gives 1000 |
| `JsNumber.ParseIntSkipsWhiteSpace` | controllers/transcoder.js:114 | leading white space never changes what `parseInt` reads |
| `JsNumber.ParseIntNoDigits` | controllers/transcoder.js:114 | a text starting with neither a sign nor a digit reads as NaN |
| `Thumbnails.FirstCandidate` | utils/thumbnailGenerator.js:44-46 | `find` returns the first entry ending in `.ts` and starting with `segment_03`, and nothing only when no entry qualifies |
| `Thumbnails.FindFirstVideoSegment` | utils/thumbnailGenerator.js:34-56 | nothing when `480p` is missing or unreadable; otherwise the joined path of the first candidate entry, or nothing when none qualifies |
| `Thumbnails.SegmentCandidateIff` | utils/thumbnailGenerator.js:44-46 | of the encoder's segment names `segment_%03d.ts`, exactly segments 30 to 39 are accepted |
| `Thumbnails.EarlySegmentsAreNoCandidates` | utils/thumbnailGenerator.js:34-56 | while the 480p folder holds no segment numbered 30 or above, the finder finds nothing, whatever non-segment files such as the playlist lie beside the segments |
| `Thumbnails.FirstSegmentWithPlaylistFindsNothing` | utils/thumbnailGenerator.js:160-177 | when the trigger fires on segment 000, the 480p folder holds that segment and its playlist, and the finder finds nothing |
| `Thumbnails.ProcessedFolderIsSkipped` | utils/thumbnailGenerator.js:62-65 | a folder already processed is left alone and the set is unchanged |
| `Thumbnails.ProcessedOnlyGrows` | utils/thumbnailGenerator.js:59-93 | the set only grows, by this folder at most; the folder joins exactly when its thumbnail already existed or a segment was found and the screenshot resolved |
| `Thumbnails.GenerateUsesFirstSegment` | utils/thumbnailGenerator.js:75-86 | a screenshot is taken only of the finder's segment, into the folder's `thumbnail.jpg`, and only when no thumbnail exists |
| `Thumbnails.RetryUntilDone` | utils/thumbnailGenerator.js:76-82 | with no segment yet, the folder stays eligible for the next call; once in the set, every later call skips it |
| `Thumbnails.DirectoryTargetsAreDirectories` | utils/thumbnailGenerator.js:102-111 | every folder the scan processes is a directory entry of the root |
| `Thumbnails.DirectoryTargetsCover` | utils/thumbnailGenerator.js:102-111 | every directory entry before any entry whose stat fails is processed |
| `Thumbnails.ScanStopsAtVanishedEntry` | utils/thumbnailGenerator.js:99-114 | a `statSync` that throws ends the scan: nothing after that entry is processed |
| `Thumbnails.ProcessAllGrows` | utils/thumbnailGenerator.js:102-111 | processing folders one after another never removes a folder and adds only folders processed |
| `Thumbnails.DirectChildIsNewMovie` | utils/thumbnailGenerator.js:136-141 | a folder created directly in the output root passes the `addDir` filter |
| `Thumbnails.NestedDirIsNotNewMovie` | utils/thumbnailGenerator.js:136-141 | the root itself and a folder two levels down, such as a rendition folder, are filtered out |
| `Thumbnails.FirstSegmentPathIsEvent` | utils/thumbnailGenerator.js:162-173 | the path of segment 000 or 001 in any folder is taken as a first segment |
| `Thumbnails.FirstSegmentTargetsMovie` | utils/thumbnailGenerator.js:166-177 | the first segment of a package's 480p rendition leads to processing that package's folder |
| `Thumbnails.ThumbnailWatcher.constructor` | utils/thumbnailGenerator.js:7 | the set of processed folders starts empty |
| `Thumbnails.ThumbnailWatcher.ProcessMovieFolder` | utils/thumbnailGenerator.js:59-93 | the call takes the step `PlanFor` gives on the old set, and leaves the set `ProcessedAfter` describes |
| `Thumbnails.ThumbnailWatcher.ScanExistingFolders` | utils/thumbnailGenerator.js:96-115 | the scan processes exactly `ScanTargets` in listing order, and the set is the result of processing them one after another |
| `Thumbnails.ThumbnailWatcher.OnAddDir` | utils/thumbnailGenerator.js:134-145 | a new movie folder is processed; any other directory leaves the set unchanged |
| `Thumbnails.ThumbnailWatcher.OnSegmentAdd` | utils/thumbnailGenerator.js:160-179 | a `.ts` path naming segment 000 or 001 processes the folder two levels up; any other file leaves the set unchanged |
| `VideoRoutes.DirectoryFoldersDefined` | routes/videos.js:12-16 | the listing's filter succeeds exactly when every entry can be stat'ed |
| `VideoRoutes.DirectoryFoldersMembers` | routes/videos.js:14-16 | when it succeeds, the filter keeps exactly the directory entries |
| `VideoRoutes.DirectoryFoldersInOrder` | routes/videos.js:14-16 | the kept folders appear in listing order |
| `VideoRoutes.ListVideosSpec` | routes/videos.js:10-31 | 500 "Failed to get videos" exactly when the root cannot be listed or an entry cannot be stat'ed; otherwise one record per directory entry, in listing order, named after the folder and pointing at its thumbnail and master |
| `VideoRoutes.AvailableMembers` | routes/videos.js:52-57 | a rendition is reported exactly when its folder exists |
| `VideoRoutes.AvailableRanked` | routes/videos.js:52-57 | reported renditions come strictly in the order 480p, 720p, 1080p |
| `VideoRoutes.DetailResolutionsSpec` | routes/videos.js:43-57 | `resolutions` is `original` followed by each rendition folder present, strictly in ladder order, none twice |
| `Pipeline.DetailReportsEveryRendition` | controllers/transcoder.js:121-125 | after the rendition work, whatever its encoders did, the detail route reports `original`, 480p, 720p and 1080p, since each rendition directory exists before its encoder runs |
| `VideoRoutes.GetVideo` | routes/videos.js:34-64 | 404 "Video not found" when the package folder is missing; otherwise the detail, with `resolutions` built by the loop over the three rendition folders |

## Left out

- **Encoding and screenshots.** The ffmpeg options and the media produced are not modelled.
  - A rendition encode is an `Ended` or an `Errored` event. A successful encode
    is assumed to leave its `playlist.m3u8`, and a failed one is assumed to add
    nothing. In practice an encode that dies partway usually leaves a
    `playlist.m3u8` already written. `isResolutionTranscoded` then counts that
    rendition as done, and the next run lists it without encoding it again. The
    model does not capture that case.
  - The segments are not represented.
  - The full-resolution encode is one boolean.
  - The screenshot's outcome is the `generated` parameter, or the `screenshotOk`
    set for the scan. `generateThumbnail` itself is not modelled.
- **Concurrency.**
  - Each `processMovieFolder` call runs to completion before the next one. In
    the source it awaits the screenshot, so two calls for the same folder can
    overlap and both take a screenshot.
  - Encoder callbacks arrive one at a time, in the order the `events` parameter
    gives.
- **Watcher options.** The chokidar options other than `ignored` are not
  modelled: depth, `ignoreInitial`, `awaitWriteFinish`, the `*/480p` glob, and
  permission errors. The model takes the events as given.
  - `initWatcher`, `watchForThumbnails` and `watchFolder` only wire the handlers
    to chokidar and are not modelled. The handlers themselves are.
- **Environment and plumbing.**
  - Environment variables become the `root` parameter.
  - The `mkdirSync` of the output root at module load is not modelled.
  - Logging is not modelled.
  - Express routing, `res.status`, JSON serialisation and `server.js` are not part
    of this model.
- VideoRoutes.GetVideo: the 500 "Failed to get video details" reply is not
  modelled. Nothing inside that `try` can throw once the folder has been found
  to exist, because `existsSync` never throws.
- NodePath.Join: it does not normalise. The model writes `dir + "/" + name`.
  Node's `join` also collapses `..`, `.` and repeated slashes. The path lemmas
  therefore require plain directory paths and single path segments.
- VideoRoutes.GetVideo: the package folder is looked up as the literal
  `root + "/" + id`. The id comes from the request path, and Express decodes
  `%2F`. Node's `join` resolves `..`, so `GET /videos/..%2F..%2Fx` makes the
  source answer 200 or 404 about a directory outside the output root. The model
  does not capture that traversal.
- Text.Lower: it folds only the characters whose lower case is an ASCII letter:
  the ASCII capitals, and U+212A KELVIN SIGN to `k`, so `clip.M\u212AV` is
  accepted as `.mkv`. JavaScript's `toLowerCase` folds other Unicode letters too,
  but always to text holding a non-ASCII character. Which extensions lower-case to
  one of the five ASCII formats is therefore the same in both. The lower-cased
  text itself is not the same for other letters.
- **Numbers.**
  - `parseInt` results are unbounded integers. JavaScript's doubles lose precision
    above 2^53, which no bitrate of the ladder comes near.
