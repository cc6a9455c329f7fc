/**
 * The HLS packaging bookkeeping of the transcoder: when a package or a rendition
 * counts as done, where a source file's package goes, and how the master playlist
 * is assembled and rewritten while the renditions' encoders finish.
 *
 * The filesystem is the set of paths that exist. Each encoder run is opaque: a
 * successful run leaves the playlist it was told to write, a failed one adds nothing.
 */
module Transcoder {
  import opened Wrappers
  import opened Text
  import opened JsNumber
  import opened NodePath

  /** One rung of the ladder: folder name, target height and ffmpeg bitrate text. */
  datatype Rendition = Rendition(name: string, height: nat, bitrate: string)

  /** The ladder `generateAdaptiveBitrateVersions` works through, in this order. */
  const Ladder: seq<Rendition> :=
    [Rendition("480p", 480, "1000k"), Rendition("720p", 720, "2500k"), Rendition("1080p", 1080, "5000k")]

  /** The renditions `isVideoAlreadyTranscoded` insists on. */
  const RequiredResolutions: seq<string> := ["480p", "720p", "1080p"]

  function OutputDir(root: Path, fileName: string): Path {
    Join(root, fileName)
  }

  function MasterPath(root: Path, fileName: string): Path {
    Join(OutputDir(root, fileName), "master.m3u8")
  }

  /** The playlist of the first, full-resolution transcode. */
  function BasePlaylist(root: Path, fileName: string): Path {
    Join(OutputDir(root, fileName), "playlist.m3u8")
  }

  function RenditionDir(root: Path, fileName: string, res: string): Path {
    Join(OutputDir(root, fileName), res)
  }

  function RenditionPlaylist(root: Path, fileName: string, res: string): Path {
    Join(RenditionDir(root, fileName, res), "playlist.m3u8")
  }

  /** `isResolutionTranscoded(fileName, res)`: the rendition's playlist exists. */
  predicate IsResolutionTranscoded(existing: set<Path>, root: Path, fileName: string, res: string) {
    RenditionPlaylist(root, fileName, res) in existing
  }

  /** `names.every(res => existsSync(<res>/playlist.m3u8))`. */
  predicate AllResolutionsTranscoded(existing: set<Path>, root: Path, fileName: string, names: seq<string>) {
    names == []
    || (IsResolutionTranscoded(existing, root, fileName, names[0])
        && AllResolutionsTranscoded(existing, root, fileName, names[1..]))
  }

  /** `isVideoAlreadyTranscoded(fileName)`. */
  predicate IsVideoAlreadyTranscoded(existing: set<Path>, root: Path, fileName: string) {
    MasterPath(root, fileName) in existing
    && AllResolutionsTranscoded(existing, root, fileName, RequiredResolutions)
  }

  lemma {:induction false} AllResolutionsTranscodedIff(existing: set<Path>, root: Path, fileName: string, names: seq<string>)
    ensures AllResolutionsTranscoded(existing, root, fileName, names)
        <==> forall k :: 0 <= k < |names| ==> RenditionPlaylist(root, fileName, names[k]) in existing
  {
    if names != [] {
      AllResolutionsTranscodedIff(existing, root, fileName, names[1..]);
      assert forall k :: 1 <= k < |names| ==> names[1..][k - 1] == names[k];
    }
  }

  /**
   * A package is done exactly when its master playlist and the playlists of 480p,
   * 720p and 1080p exist.
   */
  lemma IsVideoAlreadyTranscodedIff(existing: set<Path>, root: Path, fileName: string)
    ensures IsVideoAlreadyTranscoded(existing, root, fileName)
        <==> MasterPath(root, fileName) in existing
             && RenditionPlaylist(root, fileName, "480p") in existing
             && RenditionPlaylist(root, fileName, "720p") in existing
             && RenditionPlaylist(root, fileName, "1080p") in existing
  {
    AllResolutionsTranscodedIff(existing, root, fileName, RequiredResolutions);
    assert RequiredResolutions[0] == "480p" && RequiredResolutions[1] == "720p" && RequiredResolutions[2] == "1080p";
  }

  /** The only paths the completion check looks at. */
  function PackageMarkers(root: Path, fileName: string): set<Path> {
    {MasterPath(root, fileName),
     RenditionPlaylist(root, fileName, "480p"),
     RenditionPlaylist(root, fileName, "720p"),
     RenditionPlaylist(root, fileName, "1080p")}
  }

  /**
   * Two filesystems that agree on the master and the three rendition playlists get
   * the same answer: segments and file contents are never examined.
   */
  lemma AlreadyTranscodedReadsOnlyMarkers(e1: set<Path>, e2: set<Path>, root: Path, fileName: string)
    requires forall p :: p in PackageMarkers(root, fileName) ==> (p in e1 <==> p in e2)
    ensures IsVideoAlreadyTranscoded(e1, root, fileName) == IsVideoAlreadyTranscoded(e2, root, fileName)
  {
    IsVideoAlreadyTranscodedIff(e1, root, fileName);
    IsVideoAlreadyTranscodedIff(e2, root, fileName);
  }

  // ---------------------------------------------------------------- master playlist text

  /** The lines every master starts with, the full-resolution stream among them. */
  const Header: seq<string> :=
    ["#EXTM3U", "#EXT-X-VERSION:3",
     "#EXT-X-STREAM-INF:" + "BANDWIDTH=3000000," + "RESOLUTION=1920x1080", "playlist.m3u8"]

  /** The stream line of a rendition; its RESOLUTION is the height followed by `p`. */
  function StreamInf(r: Rendition): string {
    "#EXT-X-STREAM-INF:BANDWIDTH=" + BandwidthText(r.bitrate) + ",RESOLUTION=" + NatToString(r.height) + "p"
  }

  /** The master's line for a rendition's playlist, relative to the package folder. */
  function UriLine(r: Rendition): string {
    r.name + "/playlist.m3u8"
  }

  function EntryLines(r: Rendition): seq<string> {
    [StreamInf(r), UriLine(r)]
  }

  /** The line pairs of the listed renditions, in list order. */
  function Entries(rs: seq<Rendition>): seq<string> {
    if rs == [] then [] else Entries(rs[..|rs| - 1]) + EntryLines(rs[|rs| - 1])
  }

  function MasterLines(rs: seq<Rendition>): seq<string> {
    Header + Entries(rs)
  }

  /** The text `masterPlaylist.join("\n")` writes for the listed renditions. */
  function MasterText(rs: seq<Rendition>): string {
    JoinLines(MasterLines(rs))
  }

  lemma EntriesSnoc(rs: seq<Rendition>, r: Rendition)
    ensures Entries(rs + [r]) == Entries(rs) + EntryLines(r)
  {
    assert (rs + [r])[..|rs|] == rs;
  }

  lemma {:induction false} EntriesLength(rs: seq<Rendition>)
    ensures |Entries(rs)| == 2 * |rs|
  {
    if rs != [] {
      EntriesLength(rs[..|rs| - 1]);
    }
  }

  /** Each listed rendition contributes exactly its stream line and its playlist line. */
  lemma {:induction false} EntriesAt(rs: seq<Rendition>, k: nat)
    requires k < |rs|
    ensures |Entries(rs)| == 2 * |rs|
    ensures Entries(rs)[2 * k] == StreamInf(rs[k])
    ensures Entries(rs)[2 * k + 1] == UriLine(rs[k])
    decreases |rs|
  {
    var init := rs[..|rs| - 1];
    EntriesLength(init);
    EntriesLength(rs);
    if k < |init| {
      EntriesAt(init, k);
      assert init[k] == rs[k];
    }
  }

  lemma StreamInfOfRung(r: Rendition, kbps: nat, kbpsText: string, bandwidthText: string, heightText: string)
    requires r.bitrate == kbpsText + "k" && NatToString(kbps) == kbpsText
    requires NatToString(kbps * 1000) == bandwidthText && NatToString(r.height) == heightText
    ensures StreamInf(r) == "#EXT-X-STREAM-INF:BANDWIDTH=" + bandwidthText + ",RESOLUTION=" + heightText + "p"
  {
    ParseIntReadsLeadingNumeral(kbps, "k");
  }

  lemma NatToStringTimesTen(n: nat)
    requires n >= 1
    ensures NatToString(n * 10) == NatToString(n) + "0"
  {
    assert (n * 10) / 10 == n && (n * 10) % 10 == 0;
  }

  lemma NatToStringThousand(n: nat)
    requires n >= 1
    ensures NatToString(n * 1000) == NatToString(n) + "000"
  {
    var ten, hundred := n * 10, n * 100;
    assert hundred == ten * 10 && n * 1000 == hundred * 10;
    NatToStringTimesTen(n);
    NatToStringTimesTen(ten);
    NatToStringTimesTen(hundred);
  }

  /** The 480p rung reads its bitrate "1000k" as 1000 and advertises 1000000 bits per second. */
  lemma StreamInf480()
    ensures StreamInf(Ladder[0]) == "#EXT-X-STREAM-INF:BANDWIDTH=" + "1000000" + ",RESOLUTION=" + "480" + "p"
  {
    NatToStringThousand(1);
    NatToStringThousand(1000);
    StreamInfOfRung(Ladder[0], 1000, "1000", "1000000", "480");
  }

  /** The 720p rung reads its bitrate "2500k" as 2500 and advertises 2500000 bits per second. */
  lemma StreamInf720()
    ensures StreamInf(Ladder[1]) == "#EXT-X-STREAM-INF:BANDWIDTH=" + "2500000" + ",RESOLUTION=" + "720" + "p"
  {
    NatToStringTimesTen(25);
    NatToStringTimesTen(250);
    NatToStringThousand(2500);
    StreamInfOfRung(Ladder[1], 2500, "2500", "2500000", "720");
  }

  /** The 1080p rung reads its bitrate "5000k" as 5000 and advertises 5000000 bits per second. */
  lemma StreamInf1080()
    ensures StreamInf(Ladder[2]) == "#EXT-X-STREAM-INF:BANDWIDTH=" + "5000000" + ",RESOLUTION=" + "1080" + "p"
  {
    NatToStringThousand(5);
    NatToStringThousand(5000);
    StreamInfOfRung(Ladder[2], 5000, "5000", "5000000", "1080");
  }

  lemma NoNewlineInNumber(i: int)
    ensures '\n' !in IntToString(i)
  {
    NatToStringDigits(if i < 0 then -i else i);
  }

  lemma BandwidthHasNoNewline(bitrate: string)
    ensures '\n' !in BandwidthText(bitrate)
  {
    match ParseInt(bitrate) {
      case None =>
      case Some(n) => NoNewlineInNumber(n * 1000);
    }
  }

  lemma StreamInfHasNoNewline(r: Rendition)
    ensures '\n' !in StreamInf(r)
  {
    var bw, h := BandwidthText(r.bitrate), NatToString(r.height);
    BandwidthHasNoNewline(r.bitrate);
    NatToStringDigits(r.height);
    assert '\n' !in h;
    assert StreamInf(r) == "#EXT-X-STREAM-INF:BANDWIDTH=" + bw + ",RESOLUTION=" + h + "p";
  }

  lemma HeaderHasNoNewline()
    ensures forall line :: line in Header ==> '\n' !in line
  {
    assert '\n' !in Header[0];
    assert '\n' !in Header[1];
    assert '\n' !in Header[2];
    assert '\n' !in Header[3];
  }

  /** No line of a master holds a newline, given rendition names without one. */
  lemma {:induction false} MasterLinesHaveNoNewline(rs: seq<Rendition>)
    requires forall r :: r in rs ==> '\n' !in r.name
    ensures forall line :: line in MasterLines(rs) ==> '\n' !in line
  {
    if rs == [] {
      HeaderHasNoNewline();
      assert MasterLines(rs) == Header;
    } else {
      var init := rs[..|rs| - 1];
      var last := rs[|rs| - 1];
      MasterLinesHaveNoNewline(init);
      StreamInfHasNoNewline(last);
      assert MasterLines(rs) == MasterLines(init) + EntryLines(last);
    }
  }

  /** A reader splitting the master at newlines gets back exactly the lines written. */
  lemma MasterTextReadsBack(rs: seq<Rendition>)
    requires forall r :: r in rs ==> '\n' !in r.name
    ensures SplitLines(MasterText(rs)) == MasterLines(rs)
  {
    MasterLinesHaveNoNewline(rs);
    var lines := MasterLines(rs);
    assert forall k :: 0 <= k < |lines| ==> lines[k] in lines;
    SplitJoinLines(lines);
  }

  /** The text every master file begins with. */
  const HeaderText: string :=
    Header[0] + "\n" + Header[1] + "\n" + Header[2] + "\n" + Header[3]

  /** The header lines joined by newlines. */
  lemma HeaderJoined()
    ensures JoinLines(Header) == HeaderText
  {
    JoinFourLines(Header[0], Header[1], Header[2], Header[3]);
    assert Header == [Header[0], Header[1], Header[2], Header[3]];
  }

  /**
   * Every master starts with the four header lines, followed by a newline when any
   * rendition is listed; with none listed it is the header and nothing else.
   */
  lemma MasterTextStartsWithHeader(rs: seq<Rendition>)
    ensures rs == [] ==> MasterText(rs) == HeaderText
    ensures rs != [] ==> StartsWith(MasterText(rs), HeaderText + "\n")
  {
    HeaderJoined();
    if rs == [] {
      assert MasterLines(rs) == Header;
    } else {
      EntriesLength(rs);
      JoinLinesPrefix(Header, Entries(rs));
    }
  }

  // ---------------------------------------------------------------- the skip pass

  /** The rungs of `rs` whose playlist exists (`transcoded`) or does not, in ladder order. */
  function Select(rs: seq<Rendition>, existing: set<Path>, root: Path, fileName: string, transcoded: bool): seq<Rendition> {
    if rs == [] then []
    else
      var init := Select(rs[..|rs| - 1], existing, root, fileName, transcoded);
      var r := rs[|rs| - 1];
      if IsResolutionTranscoded(existing, root, fileName, r.name) == transcoded then init + [r] else init
  }

  /** Renditions whose playlist already exists: added to the master without an encode. */
  function Skipped(existing: set<Path>, root: Path, fileName: string): seq<Rendition> {
    Select(Ladder, existing, root, fileName, true)
  }

  /** Renditions handed to the encoder. */
  function Launched(existing: set<Path>, root: Path, fileName: string): seq<Rendition> {
    Select(Ladder, existing, root, fileName, false)
  }

  /** The renditions listed in `rs`, as a set. */
  function Elements(rs: seq<Rendition>): (s: set<Rendition>)
    ensures forall r :: r in s <==> r in rs
  {
    set r | r in rs
  }

  predicate Distinct(rs: seq<Rendition>) {
    forall i, j :: 0 <= i < j < |rs| ==> rs[i] != rs[j]
  }

  lemma {:induction false} SelectMembers(rs: seq<Rendition>, existing: set<Path>, root: Path, fileName: string, transcoded: bool)
    ensures forall x :: (x in Select(rs, existing, root, fileName, transcoded)
        <==> x in rs && IsResolutionTranscoded(existing, root, fileName, x.name) == transcoded)
    ensures Distinct(rs) ==> Distinct(Select(rs, existing, root, fileName, transcoded))
  {
    if rs != [] {
      var init := rs[..|rs| - 1];
      SelectMembers(init, existing, root, fileName, transcoded);
      assert rs == init + [rs[|rs| - 1]];
      if Distinct(rs) {
        assert Distinct(init);
      }
    }
  }

  /** Adding paths other than the rendition playlists does not change the selection. */
  lemma {:induction false} SelectIgnoresOtherPaths(rs: seq<Rendition>, existing: set<Path>, extra: set<Path>,
                                                    root: Path, fileName: string, transcoded: bool)
    requires forall r :: r in rs ==> RenditionPlaylist(root, fileName, r.name) !in extra
    ensures Select(rs, existing + extra, root, fileName, transcoded) == Select(rs, existing, root, fileName, transcoded)
  {
    if rs != [] {
      SelectIgnoresOtherPaths(rs[..|rs| - 1], existing, extra, root, fileName, transcoded);
    }
  }

  /** The skip pass puts each rung in exactly one of the two lists. */
  lemma SkippedAndLaunchedPartitionLadder(existing: set<Path>, root: Path, fileName: string)
    ensures Distinct(Skipped(existing, root, fileName)) && Distinct(Launched(existing, root, fileName))
    ensures forall r :: r in Skipped(existing, root, fileName) ==> r !in Launched(existing, root, fileName)
    ensures forall r :: r in Ladder <==> r in Skipped(existing, root, fileName) || r in Launched(existing, root, fileName)
  {
    SelectMembers(Ladder, existing, root, fileName, true);
    SelectMembers(Ladder, existing, root, fileName, false);
  }

  // ---------------------------------------------------------------- encoder completions

  /** How an encoder launched for a rendition finished. */
  datatype EncodeEvent = Ended(rendition: Rendition) | Errored(rendition: Rendition)

  /** The renditions whose encoders ended successfully, in completion order. */
  function EndedRenditions(events: seq<EncodeEvent>): seq<Rendition> {
    if events == [] then []
    else
      var init := EndedRenditions(events[..|events| - 1]);
      var e := events[|events| - 1];
      if e.Ended? then init + [e.rendition] else init
  }

  /**
   * A possible order of completions: every event belongs to a launched rendition and
   * no encoder finishes twice. Encoders not mentioned are still running.
   */
  predicate IsCompletionOrder(events: seq<EncodeEvent>, launched: seq<Rendition>) {
    (forall i :: 0 <= i < |events| ==> events[i].rendition in launched)
    && (forall i, j :: 0 <= i < j < |events| ==> events[i].rendition != events[j].rendition)
  }

  lemma {:induction false} EndedMembers(events: seq<EncodeEvent>)
    ensures forall r :: r in EndedRenditions(events) <==> Ended(r) in events
    ensures (forall i, j :: 0 <= i < j < |events| ==> events[i].rendition != events[j].rendition)
        ==> Distinct(EndedRenditions(events))
  {
    if events != [] {
      var init := events[..|events| - 1];
      EndedMembers(init);
      assert events == init + [events[|events| - 1]];
    }
  }

  /** The directories of the renditions `rs`. */
  function RenditionDirs(rs: seq<Rendition>, root: Path, fileName: string): set<Path> {
    if rs == [] then {}
    else RenditionDirs(rs[..|rs| - 1], root, fileName) + {RenditionDir(root, fileName, rs[|rs| - 1].name)}
  }

  /** The playlists of the renditions `rs`. */
  function RenditionPlaylists(rs: seq<Rendition>, root: Path, fileName: string): set<Path> {
    if rs == [] then {}
    else RenditionPlaylists(rs[..|rs| - 1], root, fileName) + {RenditionPlaylist(root, fileName, rs[|rs| - 1].name)}
  }

  lemma {:induction false} RenditionPathsMembers(rs: seq<Rendition>, root: Path, fileName: string)
    ensures forall r :: r in rs ==> RenditionDir(root, fileName, r.name) in RenditionDirs(rs, root, fileName)
    ensures forall r :: r in rs ==> RenditionPlaylist(root, fileName, r.name) in RenditionPlaylists(rs, root, fileName)
    ensures forall p :: p in RenditionPlaylists(rs, root, fileName) ==>
      exists r :: r in rs && p == RenditionPlaylist(root, fileName, r.name)
  {
    if rs != [] {
      RenditionPathsMembers(rs[..|rs| - 1], root, fileName);
      assert rs == rs[..|rs| - 1] + [rs[|rs| - 1]];
    }
  }

  /** The paths the directory and encoder work adds to the filesystem. */
  function ExistingAfter(existing: set<Path>, root: Path, fileName: string, events: seq<EncodeEvent>): set<Path> {
    existing
    + RenditionDirs(Launched(existing, root, fileName), root, fileName)
    + RenditionPlaylists(EndedRenditions(events), root, fileName)
    + (if EndedRenditions(events) == [] then {} else {MasterPath(root, fileName)})
  }

  /** The output playlists of the encoders a skip pass launches, in launch order. */
  function LaunchOutputs(rs: seq<Rendition>, root: Path, fileName: string): seq<Path> {
    if rs == [] then []
    else LaunchOutputs(rs[..|rs| - 1], root, fileName) + [RenditionPlaylist(root, fileName, rs[|rs| - 1].name)]
  }

  /** What `render` gives for `base` extended by each longer prefix of `added`, in turn. */
  function Snapshots(base: seq<Rendition>, added: seq<Rendition>, render: seq<Rendition> -> string): seq<string> {
    if added == [] then []
    else Snapshots(base, added[..|added| - 1], render) + [render(base + added)]
  }

  lemma {:induction false} SnapshotsAt(base: seq<Rendition>, added: seq<Rendition>, render: seq<Rendition> -> string)
    ensures |Snapshots(base, added, render)| == |added|
    ensures forall k :: 0 <= k < |added| ==> Snapshots(base, added, render)[k] == render(base + added[..k + 1])
  {
    if added != [] {
      var init := added[..|added| - 1];
      SnapshotsAt(base, init, render);
      forall k | 0 <= k < |init|
        ensures Snapshots(base, added, render)[k] == render(base + added[..k + 1])
      {
        assert init[..k + 1] == added[..k + 1];
      }
      assert added[..|added|] == added;
    }
  }

  /**
   * The texts written to `master.m3u8` when the renditions `ended` finish in this
   * order after the skip pass listed `skipped`: one full rewrite per completion.
   */
  function WritesOf(skipped: seq<Rendition>, ended: seq<Rendition>): seq<string> {
    Snapshots(skipped, ended, MasterText)
  }

  /** The k-th write lists the skipped renditions and the first k+1 completions. */
  lemma WritesOfAt(skipped: seq<Rendition>, ended: seq<Rendition>)
    ensures |WritesOf(skipped, ended)| == |ended|
    ensures forall k :: 0 <= k < |ended| ==> WritesOf(skipped, ended)[k] == MasterText(skipped + ended[..k + 1])
  {
    SnapshotsAt(skipped, ended, MasterText);
  }

  /**
   * The master lists the skipped renditions and then the ended ones, each once, never
   * a running one; one write per completion, and a write leaves the master on disk.
   */
  ghost predicate JobInvariant(root: Path, fileName: string, existing: set<Path>, masterPlaylist: seq<string>,
                               pending: set<Rendition>, writes: seq<string>, skipped: seq<Rendition>, ended: seq<Rendition>)
  {
    masterPlaylist == MasterLines(skipped + ended)
    && Distinct(skipped + ended)
    && (forall r :: r in pending ==> r !in skipped + ended)
    && writes == WritesOf(skipped, ended)
    && (writes != [] ==> MasterPath(root, fileName) in existing)
  }

  /** A successful encode keeps the invariant: its rendition moves from running to ended. */
  lemma EndKeepsInvariant(root: Path, fileName: string, existing: set<Path>, masterPlaylist: seq<string>,
                          pending: set<Rendition>, writes: seq<string>, skipped: seq<Rendition>, ended: seq<Rendition>,
                          r: Rendition)
    requires JobInvariant(root, fileName, existing, masterPlaylist, pending, writes, skipped, ended)
    requires r in pending
    ensures JobInvariant(root, fileName,
                         existing + {RenditionPlaylist(root, fileName, r.name), MasterPath(root, fileName)},
                         masterPlaylist + EntryLines(r), pending - {r},
                         writes + [JoinLines(masterPlaylist + EntryLines(r))], skipped, ended + [r])
  {
    EndedSnoc(skipped, ended, r);
  }

  /** The rung the skip pass is at has not been put in either list yet. */
  lemma RungNotYetSelected(i: nat, existing0: set<Path>, root: Path, fileName: string)
    requires i < |Ladder|
    ensures Ladder[i] !in Select(Ladder[..i], existing0, root, fileName, true)
    ensures Ladder[i] !in Select(Ladder[..i], existing0, root, fileName, false)
    ensures forall x :: x in Select(Ladder[..i], existing0, root, fileName, false) ==> '/' !in x.name
  {
    LadderShape();
    SelectMembers(Ladder[..i], existing0, root, fileName, true);
    SelectMembers(Ladder[..i], existing0, root, fileName, false);
    assert forall k :: 0 <= k < i ==> Ladder[..i][k] == Ladder[k];
  }

  lemma SelectSnoc(rs: seq<Rendition>, r: Rendition, existing: set<Path>, root: Path, fileName: string, transcoded: bool)
    ensures Select(rs + [r], existing, root, fileName, transcoded)
         == Select(rs, existing, root, fileName, transcoded)
            + (if IsResolutionTranscoded(existing, root, fileName, r.name) == transcoded then [r] else [])
  {
    assert (rs + [r])[..|rs|] == rs;
  }

  lemma LaunchSnoc(rs: seq<Rendition>, r: Rendition, root: Path, fileName: string)
    ensures Elements(rs + [r]) == Elements(rs) + {r}
    ensures LaunchOutputs(rs + [r], root, fileName) == LaunchOutputs(rs, root, fileName) + [RenditionPlaylist(root, fileName, r.name)]
    ensures RenditionDirs(rs + [r], root, fileName) == RenditionDirs(rs, root, fileName) + {RenditionDir(root, fileName, r.name)}
  {
    assert (rs + [r])[..|rs|] == rs;
  }

  /**
   * After the skip pass has seen the first `i` rungs: the master lists the skipped
   * ones, the others are running, launched in order, each with its directory made.
   */
  ghost predicate SkipPassState(i: nat, existing0: set<Path>, root: Path, fileName: string, existing: set<Path>,
                                masterPlaylist: seq<string>, pending: set<Rendition>, launches: seq<Path>,
                                skipped: seq<Rendition>)
  {
    i <= |Ladder|
    && JobInvariant(root, fileName, existing, masterPlaylist, pending, [], skipped, [])
    && skipped == Select(Ladder[..i], existing0, root, fileName, true)
    && pending == Elements(Select(Ladder[..i], existing0, root, fileName, false))
    && launches == LaunchOutputs(Select(Ladder[..i], existing0, root, fileName, false), root, fileName)
    && existing == existing0 + RenditionDirs(Select(Ladder[..i], existing0, root, fileName, false), root, fileName)
  }

  /** One rung of the skip pass keeps `SkipPassState`, whichever branch it takes. */
  lemma SkipStepKeepsState(i: nat, existing0: set<Path>, root: Path, fileName: string, existing: set<Path>,
                           masterPlaylist: seq<string>, pending: set<Rendition>, launches: seq<Path>,
                           skipped: seq<Rendition>)
    requires i < |Ladder|
    requires SkipPassState(i, existing0, root, fileName, existing, masterPlaylist, pending, launches, skipped)
    ensures var r := Ladder[i];
      IsResolutionTranscoded(existing, root, fileName, r.name) ==>
        SkipPassState(i + 1, existing0, root, fileName, existing, masterPlaylist + EntryLines(r), pending, launches,
                      skipped + [r])
    ensures var r := Ladder[i];
      !IsResolutionTranscoded(existing, root, fileName, r.name) ==>
        SkipPassState(i + 1, existing0, root, fileName, existing + {RenditionDir(root, fileName, r.name)},
                      masterPlaylist, pending + {r}, launches + [RenditionPlaylist(root, fileName, r.name)], skipped)
  {
    var r := Ladder[i];
    var launched := Select(Ladder[..i], existing0, root, fileName, false);
    assert Ladder[..i + 1] == Ladder[..i] + [r];
    RungNotYetSelected(i, existing0, root, fileName);
    DirsAreNotPlaylists(launched, root, fileName, r.name);
    SelectSnoc(Ladder[..i], r, existing0, root, fileName, true);
    SelectSnoc(Ladder[..i], r, existing0, root, fileName, false);
    if IsResolutionTranscoded(existing0, root, fileName, r.name) {
      SkipKeepsInvariant(root, fileName, existing, masterPlaylist, pending, skipped, r);
      assert launched + [] == launched;
    } else {
      LaunchKeepsInvariant(root, fileName, existing, masterPlaylist, pending, skipped, r);
      LaunchSnoc(launched, r, root, fileName);
    }
  }

  /** Listing an already-transcoded rendition during the skip pass keeps the invariant. */
  lemma SkipKeepsInvariant(root: Path, fileName: string, existing: set<Path>, masterPlaylist: seq<string>,
                           pending: set<Rendition>, skipped: seq<Rendition>, r: Rendition)
    requires JobInvariant(root, fileName, existing, masterPlaylist, pending, [], skipped, [])
    requires r !in skipped && r !in pending
    ensures JobInvariant(root, fileName, existing, masterPlaylist + EntryLines(r), pending, [], skipped + [r], [])
  {
    assert skipped + [] == skipped && (skipped + [r]) + [] == skipped + [r];
    EndedSnoc(skipped, [], r);
    assert skipped + ([] + [r]) == skipped + [r];
  }

  /** Launching an encoder for a rendition not yet listed keeps the invariant. */
  lemma LaunchKeepsInvariant(root: Path, fileName: string, existing: set<Path>, masterPlaylist: seq<string>,
                             pending: set<Rendition>, skipped: seq<Rendition>, r: Rendition)
    requires JobInvariant(root, fileName, existing, masterPlaylist, pending, [], skipped, [])
    requires r !in skipped
    ensures JobInvariant(root, fileName, existing + {RenditionDir(root, fileName, r.name)}, masterPlaylist,
                         pending + {r}, [], skipped, [])
  {
    assert skipped + [] == skipped;
  }

  /**
   * The state of one `generateAdaptiveBitrateVersions` call: the shared
   * `masterPlaylist` array, the encoders still running, the encoders launched and
   * every text written to `master.m3u8`, in order.
   */
  class AdaptiveBitrateJob {
    const root: Path
    const fileName: string
    var existing: set<Path>
    var masterPlaylist: seq<string>
    var pending: set<Rendition>
    var launches: seq<Path>
    var writes: seq<string>
    ghost var skipped: seq<Rendition>
    ghost var ended: seq<Rendition>

    /** The job's fields satisfy `JobInvariant`. */
    ghost predicate Valid()
      reads this
    {
      JobInvariant(root, fileName, existing, masterPlaylist, pending, writes, skipped, ended)
    }

    constructor (root: Path, fileName: string, existing: set<Path>)
      ensures Valid()
      ensures this.root == root && this.fileName == fileName && this.existing == existing
      ensures masterPlaylist == Header && pending == {} && launches == [] && writes == []
      ensures skipped == [] && ended == []
    {
      this.root := root;
      this.fileName := fileName;
      this.existing := existing;
      masterPlaylist := Header;
      pending := {};
      launches := [];
      writes := [];
      skipped := [];
      ended := [];
    }

    /**
     * The synchronous `forEach` over the ladder: a rendition whose playlist exists is
     * appended to the master at once; any other gets its directory and an encoder.
     */
    method SkipPass()
      requires Valid() && skipped == [] && ended == [] && pending == {} && launches == []
      modifies this
      ensures skipped == Skipped(old(existing), root, fileName) && ended == []
      ensures pending == Elements(Launched(old(existing), root, fileName))
      ensures launches == LaunchOutputs(Launched(old(existing), root, fileName), root, fileName)
      ensures existing == old(existing) + RenditionDirs(Launched(old(existing), root, fileName), root, fileName)
      ensures writes == old(writes)
      ensures Valid()
    {
      ghost var existing0 := existing;
      var i := 0;
      while i < |Ladder|
        invariant 0 <= i <= |Ladder| && ended == [] && writes == []
        invariant SkipPassState(i, existing0, root, fileName, existing, masterPlaylist, pending, launches, skipped)
      {
        SkipRung(i, existing0);
        i := i + 1;
      }
      assert Ladder[..i] == Ladder;
    }

    /** One rung of the `forEach`: list it if its playlist exists, otherwise launch its encoder. */
    method SkipRung(i: nat, ghost existing0: set<Path>)
      requires i < |Ladder|
      requires SkipPassState(i, existing0, root, fileName, existing, masterPlaylist, pending, launches, skipped)
      modifies this
      ensures ended == old(ended) && writes == old(writes)
      ensures SkipPassState(i + 1, existing0, root, fileName, existing, masterPlaylist, pending, launches, skipped)
    {
      var r := Ladder[i];
      SkipStepKeepsState(i, existing0, root, fileName, existing, masterPlaylist, pending, launches, skipped);
      if IsResolutionTranscoded(existing, root, fileName, r.name) {
        masterPlaylist, skipped := masterPlaylist + EntryLines(r), skipped + [r];
      } else {
        existing := existing + {RenditionDir(root, fileName, r.name)};
        launches := launches + [RenditionPlaylist(root, fileName, r.name)];
        pending := pending + {r};
      }
    }

    /**
     * An encoder's `end` callback: the encoder has left the rendition's playlist, the
     * rendition is appended to the master, and the whole master is written again.
     */
    method OnEncodeEnd(r: Rendition)
      requires Valid() && r in pending
      modifies this
      ensures pending == old(pending) - {r} && launches == old(launches)
      ensures skipped == old(skipped) && ended == old(ended) + [r]
      ensures masterPlaylist == old(masterPlaylist) + EntryLines(r)
      ensures writes == old(writes) + [JoinLines(masterPlaylist)]
      ensures existing == old(existing) + {RenditionPlaylist(root, fileName, r.name), MasterPath(root, fileName)}
      ensures Valid()
    {
      EndKeepsInvariant(root, fileName, existing, masterPlaylist, pending, writes, skipped, ended, r);
      var lines := masterPlaylist + EntryLines(r);
      existing := existing + {RenditionPlaylist(root, fileName, r.name), MasterPath(root, fileName)};
      masterPlaylist, pending, writes, ended := lines, pending - {r}, writes + [JoinLines(lines)], ended + [r];
    }

    /** An encoder's `error` callback: only logged, so nothing but the running set changes. */
    method OnEncodeError(r: Rendition)
      requires Valid() && r in pending
      modifies this
      ensures pending == old(pending) - {r} && launches == old(launches)
      ensures skipped == old(skipped) && ended == old(ended)
      ensures masterPlaylist == old(masterPlaylist) && writes == old(writes) && existing == old(existing)
      ensures Valid()
    {
      pending := pending - {r};
    }
  }

  /** Appending a completion to the ended list extends the master and the writes by one step. */
  lemma EndedSnoc(skipped: seq<Rendition>, ended: seq<Rendition>, r: Rendition)
    requires Distinct(skipped + ended) && r !in skipped + ended
    ensures Distinct(skipped + (ended + [r]))
    ensures MasterLines(skipped + (ended + [r])) == MasterLines(skipped + ended) + EntryLines(r)
    ensures WritesOf(skipped, ended + [r]) == WritesOf(skipped, ended) + [JoinLines(MasterLines(skipped + (ended + [r])))]
  {
    assert (skipped + ended) + [r] == skipped + (ended + [r]);
    assert (ended + [r])[..|ended|] == ended;
    EntriesSnoc(skipped + ended, r);
  }

  /** The rungs differ from one another and their names are single path segments. */
  lemma LadderShape()
    ensures Distinct(Ladder)
    ensures forall r :: r in Ladder ==> '/' !in r.name
  {
  }

  /** A rendition directory is never a rendition playlist, since rung names hold no '/'. */
  lemma {:induction false} DirsAreNotPlaylists(rs: seq<Rendition>, root: Path, fileName: string, res: string)
    requires forall r :: r in rs ==> '/' !in r.name
    ensures RenditionPlaylist(root, fileName, res) !in RenditionDirs(rs, root, fileName)
  {
    if rs != [] {
      DirsAreNotPlaylists(rs[..|rs| - 1], root, fileName, res);
      var name := rs[|rs| - 1].name;
      var o := OutputDir(root, fileName);
      var d := RenditionDir(root, fileName, name);
      var p := RenditionPlaylist(root, fileName, res);
      if |d| == |p| {
        var k := |o| + 1 + |res|;
        assert p[k] == '/';
        assert d[k] == name[|res|];
      }
    }
  }

  /** What one more completion adds to the ended list and to the filesystem. */
  lemma EventStep(existing: set<Path>, root: Path, fileName: string, events: seq<EncodeEvent>, i: nat)
    requires i < |events|
    ensures var e := events[i];
      EndedRenditions(events[..i + 1]) == EndedRenditions(events[..i]) + (if e.Ended? then [e.rendition] else [])
    ensures var e := events[i];
      ExistingAfter(existing, root, fileName, events[..i + 1])
      == ExistingAfter(existing, root, fileName, events[..i])
         + (if e.Ended? then {RenditionPlaylist(root, fileName, e.rendition.name), MasterPath(root, fileName)} else {})
  {
    var e := events[i];
    var before := EndedRenditions(events[..i]);
    assert events[..i + 1] == events[..i] + [e];
    assert events[..i + 1][..i] == events[..i];
    if e.Ended? {
      assert (before + [e.rendition])[..|before|] == before;
    } else {
      assert before + [] == before;
    }
  }

  /**
   * `generateAdaptiveBitrateVersions` followed by the encoders finishing in the order
   * `events` gives: the master lists the skipped renditions, then the ended ones in
   * completion order; one full write per successful encode, none otherwise.
   */
  method GenerateAdaptiveBitrateVersions(root: Path, fileName: string, existing: set<Path>, events: seq<EncodeEvent>)
    returns (master: seq<string>, launches: seq<Path>, writes: seq<string>, existingAfter: set<Path>)
    requires IsCompletionOrder(events, Launched(existing, root, fileName))
    ensures master == MasterLines(Skipped(existing, root, fileName) + EndedRenditions(events))
    ensures launches == LaunchOutputs(Launched(existing, root, fileName), root, fileName)
    ensures writes == WritesOf(Skipped(existing, root, fileName), EndedRenditions(events))
    ensures existingAfter == ExistingAfter(existing, root, fileName, events)
  {
    var job := new AdaptiveBitrateJob(root, fileName, existing);
    job.SkipPass();
    var i := 0;
    while i < |events|
      invariant 0 <= i <= |events|
      invariant job.Valid() && job.root == root && job.fileName == fileName
      invariant job.skipped == Skipped(existing, root, fileName)
      invariant job.ended == EndedRenditions(events[..i])
      invariant forall k :: i <= k < |events| ==> events[k].rendition in job.pending
      invariant job.launches == LaunchOutputs(Launched(existing, root, fileName), root, fileName)
      invariant job.existing == ExistingAfter(existing, root, fileName, events[..i])
    {
      var e := events[i];
      EventStep(existing, root, fileName, events, i);
      if e.Ended? {
        job.OnEncodeEnd(e.rendition);
      } else {
        job.OnEncodeError(e.rendition);
      }
      i := i + 1;
    }
    assert events[..i] == events;
    master, launches, writes, existingAfter := job.masterPlaylist, job.launches, job.writes, job.existing;
  }

  /**
   * `transcodeVideo(filePath)`: the package folder is named after the source file's
   * stem. A finished package is left alone. Otherwise the folder is created and the
   * full-resolution encoder launched; only when it ends does the rendition work start.
   */
  method TranscodeVideo(root: Path, existing: set<Path>, filePath: Path, baseEnded: bool, events: seq<EncodeEvent>)
    returns (launches: seq<Path>, writes: seq<string>, existingAfter: set<Path>)
    requires IsCompletionOrder(events, Launched(existing, root, Stem(filePath)))
    ensures var fileName := Stem(filePath);
      IsVideoAlreadyTranscoded(existing, root, fileName) ==>
        launches == [] && writes == [] && existingAfter == existing
    ensures var fileName := Stem(filePath);
      !IsVideoAlreadyTranscoded(existing, root, fileName) && !baseEnded ==>
        launches == [BasePlaylist(root, fileName)] && writes == []
        && existingAfter == existing + {OutputDir(root, fileName)}
    ensures var fileName := Stem(filePath);
      !IsVideoAlreadyTranscoded(existing, root, fileName) && baseEnded ==>
        launches == [BasePlaylist(root, fileName)] + LaunchOutputs(Launched(existing, root, fileName), root, fileName)
        && writes == WritesOf(Skipped(existing, root, fileName), EndedRenditions(events))
        && existingAfter == ExistingAfter(existing + {OutputDir(root, fileName), BasePlaylist(root, fileName)},
                                          root, fileName, events)
  {
    var fileName := Stem(filePath);
    if IsVideoAlreadyTranscoded(existing, root, fileName) {
      return [], [], existing;
    }
    var afterMkdir := existing + {OutputDir(root, fileName)};
    launches := [BasePlaylist(root, fileName)];
    if !baseEnded {
      return launches, [], afterMkdir;
    }
    var afterBase := afterMkdir + {BasePlaylist(root, fileName)};
    assert afterBase == existing + {OutputDir(root, fileName), BasePlaylist(root, fileName)};
    BaseWorkKeepsSelection(existing, root, fileName);
    var master, renditionLaunches;
    master, renditionLaunches, writes, existingAfter := GenerateAdaptiveBitrateVersions(root, fileName, afterBase, events);
    launches := launches + renditionLaunches;
  }

  lemma BaseWorkKeepsSelection(existing: set<Path>, root: Path, fileName: string)
    ensures Skipped(existing + {OutputDir(root, fileName), BasePlaylist(root, fileName)}, root, fileName)
         == Skipped(existing, root, fileName)
    ensures Launched(existing + {OutputDir(root, fileName), BasePlaylist(root, fileName)}, root, fileName)
         == Launched(existing, root, fileName)
  {
    var extra := {OutputDir(root, fileName), BasePlaylist(root, fileName)};
    forall r | r in Ladder ensures RenditionPlaylist(root, fileName, r.name) !in extra {
      assert |RenditionPlaylist(root, fileName, r.name)| > |BasePlaylist(root, fileName)| > |OutputDir(root, fileName)|;
    }
    SelectIgnoresOtherPaths(Ladder, existing, extra, root, fileName, true);
    SelectIgnoresOtherPaths(Ladder, existing, extra, root, fileName, false);
  }

  // ---------------------------------------------------------------- what a run leaves behind

  lemma DistinctAppend(a: seq<Rendition>, b: seq<Rendition>)
    requires Distinct(a) && Distinct(b)
    requires forall r :: r in a ==> r !in b
    ensures Distinct(a + b)
  {
    forall i, j | 0 <= i < j < |a + b|
      ensures (a + b)[i] != (a + b)[j]
    {
      if j < |a| {
      } else if i >= |a| {
        assert (a + b)[i] == b[i - |a|] && (a + b)[j] == b[j - |a|];
      } else {
        assert (a + b)[i] in a && (a + b)[j] in b;
      }
    }
  }

  /**
   * Every rendition is listed at most once, skipped ones first; a listed rendition was
   * either found on disk or encoded successfully, and a failed one is never listed.
   */
  lemma ListedOnce(existing: set<Path>, root: Path, fileName: string, events: seq<EncodeEvent>)
    requires IsCompletionOrder(events, Launched(existing, root, fileName))
    ensures Distinct(Skipped(existing, root, fileName) + EndedRenditions(events))
    ensures forall r :: (r in Skipped(existing, root, fileName) + EndedRenditions(events)
      <==> r in Skipped(existing, root, fileName) || Ended(r) in events)
    ensures forall r :: Errored(r) in events ==> r !in Skipped(existing, root, fileName) + EndedRenditions(events)
  {
    var skipped, launched := Skipped(existing, root, fileName), Launched(existing, root, fileName);
    SkippedAndLaunchedPartitionLadder(existing, root, fileName);
    EndedMembers(events);
    forall r | Ended(r) in events
      ensures r in launched
    {
      var k :| 0 <= k < |events| && events[k] == Ended(r);
    }
    DistinctAppend(skipped, EndedRenditions(events));
    forall r | Errored(r) in events
      ensures r !in skipped + EndedRenditions(events)
    {
      var a :| 0 <= a < |events| && events[a] == Errored(r);
      assert forall b :: 0 <= b < |events| && b != a ==> events[b].rendition != r;
    }
  }

  /**
   * Once every encoder launched has ended, the package passes `isVideoAlreadyTranscoded`,
   * provided a master exists: one was written by an encode, or was already there.
   */
  lemma RerunSkipsAfterFullSuccess(existing: set<Path>, root: Path, fileName: string, events: seq<EncodeEvent>)
    requires IsCompletionOrder(events, Launched(existing, root, fileName))
    requires forall r :: r in Launched(existing, root, fileName) ==> Ended(r) in events
    requires Launched(existing, root, fileName) != [] || MasterPath(root, fileName) in existing
    ensures IsVideoAlreadyTranscoded(ExistingAfter(existing, root, fileName, events), root, fileName)
  {
    var after := ExistingAfter(existing, root, fileName, events);
    var launched := Launched(existing, root, fileName);
    SkippedAndLaunchedPartitionLadder(existing, root, fileName);
    SelectMembers(Ladder, existing, root, fileName, true);
    EndedMembers(events);
    RenditionPathsMembers(EndedRenditions(events), root, fileName);
    forall r | r in Ladder
      ensures RenditionPlaylist(root, fileName, r.name) in after
    {
      if r in launched {
        assert r in EndedRenditions(events);
      }
    }
    if launched != [] {
      assert launched[0] in EndedRenditions(events);
    }
    assert Ladder[0] in Ladder && Ladder[1] in Ladder && Ladder[2] in Ladder;
    IsVideoAlreadyTranscodedIff(after, root, fileName);
  }

  /**
   * When every rendition playlist exists but the master does not, no encoder is
   * launched and the master is never written, so the package never passes the check
   * and every later `transcodeVideo` starts over with the full-resolution encode.
   */
  lemma MissingMasterNeverWritten(existing: set<Path>, root: Path, fileName: string, events: seq<EncodeEvent>)
    requires IsCompletionOrder(events, Launched(existing, root, fileName))
    requires forall r :: r in Ladder ==> IsResolutionTranscoded(existing, root, fileName, r.name)
    requires MasterPath(root, fileName) !in existing
    ensures Launched(existing, root, fileName) == [] && events == []
    ensures WritesOf(Skipped(existing, root, fileName), EndedRenditions(events)) == []
    ensures ExistingAfter(existing, root, fileName, events) == existing
    ensures !IsVideoAlreadyTranscoded(ExistingAfter(existing, root, fileName, events), root, fileName)
  {
    SelectNone(Ladder, existing, root, fileName, false);
    CompletionNeedsLaunch(events, Launched(existing, root, fileName));
  }

  lemma {:induction false} SelectNone(rs: seq<Rendition>, existing: set<Path>, root: Path, fileName: string, transcoded: bool)
    requires forall x :: x in rs ==> IsResolutionTranscoded(existing, root, fileName, x.name) != transcoded
    ensures Select(rs, existing, root, fileName, transcoded) == []
  {
    if rs != [] {
      assert rs[|rs| - 1] in rs;
      SelectNone(rs[..|rs| - 1], existing, root, fileName, transcoded);
    }
  }

  /** Every completion belongs to a launched encoder. */
  lemma CompletionNeedsLaunch(events: seq<EncodeEvent>, launched: seq<Rendition>)
    requires IsCompletionOrder(events, launched)
    ensures |events| > 0 ==> |launched| > 0
  {
    if |events| > 0 {
      assert events[0].rendition in launched;
    }
  }

  /** The rungs' names start with a digit and tell the rungs apart. */
  lemma LadderNames()
    ensures forall r :: r in Ladder ==> r.name != [] && IsDecimalDigit(r.name[0])
    ensures forall r, x :: r in Ladder && x in Ladder && r.name == x.name ==> r == x
  {
  }

  /**
   * For renditions of the ladder, the master mentions a rendition's playlist exactly
   * when the rendition is listed.
   */
  lemma MasterListsUriIff(rs: seq<Rendition>, r: Rendition)
    requires forall x :: x in rs ==> x in Ladder
    requires r in Ladder
    ensures UriLine(r) in MasterLines(rs) <==> r in rs
  {
    var lines := MasterLines(rs);
    EntriesLength(rs);
    if r in rs {
      var k :| 0 <= k < |rs| && rs[k] == r;
      EntriesAt(rs, k);
      assert lines[|Header| + 2 * k + 1] == UriLine(r);
    }
    if UriLine(r) in lines {
      var j :| 0 <= j < |lines| && lines[j] == UriLine(r);
      LadderNames();
      UriLineIsNoOtherLine(rs, r, j);
      var k :| 0 <= k < |rs| && rs[k].name == r.name;
      assert rs[k] in rs && rs[k] in Ladder;
    }
  }

  /** Header lines open with `#` or, for the full-resolution playlist, with `p`. */
  lemma HeaderLineStarts(j: nat)
    requires j < |Header|
    ensures Header[j] != [] && (Header[j][0] == '#' || Header[j][0] == 'p')
  {
  }

  lemma StreamInfStarts(r: Rendition)
    ensures StreamInf(r) != [] && StreamInf(r)[0] == '#'
  {
    var tail := BandwidthText(r.bitrate) + ",RESOLUTION=" + NatToString(r.height) + "p";
    assert StreamInf(r) == "#EXT-X-STREAM-INF:BANDWIDTH=" + tail;
  }

  /** A line opening with a digit is neither a header line nor a stream line. */
  lemma DigitLineIsNoTag(u: string, r: Rendition)
    requires u != [] && IsDecimalDigit(u[0])
    ensures u !in Header && u != StreamInf(r)
  {
    forall j | 0 <= j < |Header|
      ensures Header[j] != u
    {
      HeaderLineStarts(j);
    }
    StreamInfStarts(r);
  }

  /** An entry line that reads as a playlist line is the playlist line of a listed rendition. */
  lemma EntryLineNames(rs: seq<Rendition>, e: nat, name: string)
    requires e < |Entries(rs)|
    requires name != [] && IsDecimalDigit(name[0])
    requires Entries(rs)[e] == name + "/playlist.m3u8"
    ensures exists k :: 0 <= k < |rs| && rs[k].name == name
  {
    EntriesLength(rs);
    var k := e / 2;
    EntriesAt(rs, k);
    var u := name + "/playlist.m3u8";
    assert u[0] == name[0];
    DigitLineIsNoTag(u, rs[k]);
    assert e == 2 * k + 1;
    SameUriSameName(rs[k].name, name);
  }

  /** The line of the master that equals a rung's playlist line is that rung's entry. */
  lemma UriLineIsNoOtherLine(rs: seq<Rendition>, r: Rendition, j: nat)
    requires r.name != [] && IsDecimalDigit(r.name[0])
    requires j < |MasterLines(rs)| && MasterLines(rs)[j] == UriLine(r)
    ensures exists k :: 0 <= k < |rs| && rs[k].name == r.name
  {
    var lines := MasterLines(rs);
    assert UriLine(r)[0] == r.name[0];
    DigitLineIsNoTag(UriLine(r), r);
    assert j >= |Header|;
    assert lines[j] == Entries(rs)[j - |Header|];
    EntryLineNames(rs, j - |Header|, r.name);
  }

  lemma SameUriSameName(a: string, b: string)
    requires a + "/playlist.m3u8" == b + "/playlist.m3u8"
    ensures a == b
  {
    var sa, sb := a + "/playlist.m3u8", b + "/playlist.m3u8";
    assert |a| == |b|;
    assert forall i :: 0 <= i < |a| ==> a[i] == sa[i] && b[i] == sb[i];
  }
}
