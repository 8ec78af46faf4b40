// The command-line script (main.py): the terminal flow that came before the
// interface. It picks the torrent's file by exact name instead of by index,
// groups episodes by season through a defaultdict, appends the season and
// episode to the item id, and gates the player on 80 KiB.
module Script {
  import opened Wrappers
  import opened PyText
  import opened Videos
  import opened Models
  import opened Engine
  import opened Streaming

  /** One file of the torrent: its name and its path inside the torrent. */
  datatype TorrentFile = TorrentFile(name: string, path: string)

  /** The index of the first file named exactly `hint`, or None. */
  function FirstNamed(files: seq<TorrentFile>, hint: string): (k: Option<nat>)
    ensures k.Some? ==> k.value < |files| && files[k.value].name == hint
    ensures k.Some? ==> forall j :: 0 <= j < k.value ==> files[j].name != hint
    ensures k.None? ==> forall j :: 0 <= j < |files| ==> files[j].name != hint
  {
    if files == [] then None
    else if files[0].name == hint then Some(0)
    else
      match FirstNamed(files[1..], hint)
      case None => None
      case Some(k) => Some(k + 1)
  }

  /** `[0] * n` */
  function Zeros(n: nat): (p: seq<int>)
    ensures |p| == n && Count(p, 1) == 0 && Count(p, 0) == n
  {
    NoOnes(n, n);
    assert OneHot(n, n) == seq(n, i => 0);
    seq(n, i => 0)
  }

  /** Lines 71-77: every priority starts at 0; the first file whose name equals the
      hint becomes the wanted file, gets priority 1 and gives the extension, and the
      loop stops there. None where no file matches (the script then fails on the
      unset variables). */
  method SelectWantedFile(files: seq<TorrentFile>, hint: string)
    returns (wanted: Option<nat>, extension: Option<string>, priorities: seq<int>)
    ensures wanted == FirstNamed(files, hint)
    ensures wanted.Some? ==> extension == Some(PathSuffix(files[wanted.value].path))
    ensures wanted.Some? ==> priorities == OneHot(|files|, wanted.value)
    ensures wanted.None? ==> extension.None? && priorities == Zeros(|files|)
  {
    var p := new int[|files|](_ => 0);
    wanted, extension := None, None;
    for i := 0 to |files|
      invariant forall j :: 0 <= j < i ==> files[j].name != hint
      invariant p[..] == Zeros(|files|)
    {
      if files[i].name == hint {
        wanted := Some(i);
        extension := Some(PathSuffix(files[i].path));
        p[i] := 1;
        break;
      }
    }
    priorities := p[..];
  }

  /** At most one file is wanted: the vector holds a single 1 when a file matches
      and none otherwise, and always one entry per file. */
  lemma SelectedPrioritiesAtMostOne(files: seq<TorrentFile>, hint: string)
    ensures var k := FirstNamed(files, hint);
      k.Some? ==> Count(OneHot(|files|, k.value), 1) == 1 && OneHot(|files|, k.value)[k.value] == 1
  {
    var k := FirstNamed(files, hint);
    if k.Some? {
      OneHotCounts(|files|, k.value);
    }
  }

  /** Lines 35-39: the episodes of the selected season, read from a defaultdict,
      so a season with no episodes reads as an empty list. */
  method EpisodesOfSeason(videos: seq<Video>, selectedSeason: int) returns (episodes: seq<Video>)
    ensures episodes == OfSeason(videos, selectedSeason)
  {
    var seasons := GroupBySeason(videos);
    if selectedSeason in seasons {
      episodes := seasons[selectedSeason];
    } else {
      NoneSelected(videos, selectedSeason);
      episodes := [];
    }
  }

  /** Line 44: `item_id += f":{selected_season}:{selected_episode}"`. */
  function SeriesItemId(imdbId: string, season: int, episode: int): (id: string)
    ensures StartsWith(id, imdbId)
  {
    var id := imdbId + ":" + DecimalString(season) + ":" + DecimalString(episode);
    assert id[..|imdbId|] == imdbId;
    id
  }

  /** The suffix splits back on ":" and its two numbers read back as the season and
      the episode. */
  lemma SeriesItemIdSplitsBack(imdbId: string, season: int, episode: int)
    requires ':' !in imdbId
    ensures var parts := SplitOn(SeriesItemId(imdbId, season, episode), ':');
      && parts == [imdbId, DecimalString(season), DecimalString(episode)]
      && ParseDecimal(parts[1]) == season && ParseDecimal(parts[2]) == episode
  {
    var parts := [imdbId, DecimalString(season), DecimalString(episode)];
    JoinThree(imdbId, DecimalString(season), DecimalString(episode), ":");
    SplitOnOfJoin(parts, ':');
    ParseDecimalOfDecimalString(season);
    ParseDecimalOfDecimalString(episode);
  }

  /** The script's id is the one the application builds from the same season and
      episode written out in decimal. */
  lemma SeriesItemIdAgrees(imdbId: string, season: int, episode: int)
    ensures SeriesItemId(imdbId, season, episode)
      == ItemId(EntryData("series", imdbId, Some(DecimalString(season)), Some(DecimalString(episode))))
  {
    JoinThree(imdbId, DecimalString(season), DecimalString(episode), ":");
  }

  // ---------------------------------------------------------------------------
  // The playback run
  // ---------------------------------------------------------------------------

  /** What the engine reports to the script: metadata polls, the torrent's files,
      byte-count polls after resuming, and seeding polls after the launch. */
  datatype ScriptReadings = ScriptReadings(hasMetadata: seq<bool>, files: seq<TorrentFile>,
                                           totalDownload: seq<int>, isSeeding: seq<bool>)

  /** How the script ends: seeding, still waiting when the readings run out, or
      failing because no file has the hinted name. */
  datatype ScriptOutcome = Seeding | MetadataPending | NoMatchingFile | BelowGate | AwaitingSeeding

  datatype ScriptRun = ScriptRun(actions: seq<Action>, outcome: ScriptOutcome)

  const ScriptFlags: set<Flag> := {Paused, SequentialDownload}

  /** The gate before the player: 80 KiB. */
  const ResumeThreshold := 80 * 1024

  /** Lines 54-89 past the prompts: the requests the script makes and where it stops.
      The torrent is added paused with no trackers beyond those of its magnet link. */
  function Playback(infoHash: string, hint: string, engine: ScriptReadings, baseFolder: string): (run: ScriptRun)
    ensures |run.actions| >= 1 && run.actions[0] == AddTorrent(MagnetLink(infoHash), [], ScriptFlags)
  {
    var add := AddTorrent(MagnetLink(infoHash), [], ScriptFlags);
    var k := FirstNamed(engine.files, hint);
    if FirstTrue(engine.hasMetadata).None? then ScriptRun([add], MetadataPending)
    else if k.None? then ScriptRun([add], NoMatchingFile)
    else
      var path := baseFolder + "/" + BufferStem + PathSuffix(engine.files[k.value].path);
      var setup := [add, PrioritizeFiles(OneHot(|engine.files|, k.value)), RenameFile(k.value, path), Resume];
      if FirstAtLeast(engine.totalDownload, ResumeThreshold).None? then ScriptRun(setup, BelowGate)
      else if FirstTrue(engine.isSeeding).None? then ScriptRun(setup + [LaunchPlayer(path)], AwaitingSeeding)
      else ScriptRun(setup + [LaunchPlayer(path)], Seeding)
  }

  /** The run's requests and outcome, one stopping point at a time. */
  lemma PlaybackShape(infoHash: string, hint: string, engine: ScriptReadings, baseFolder: string)
    ensures var run := Playback(infoHash, hint, engine, baseFolder);
      var add := AddTorrent(MagnetLink(infoHash), [], ScriptFlags);
      var k := FirstNamed(engine.files, hint);
      && (FirstTrue(engine.hasMetadata).None? ==> run == ScriptRun([add], MetadataPending))
      && (FirstTrue(engine.hasMetadata).Some? && k.None? ==> run == ScriptRun([add], NoMatchingFile))
      && (FirstTrue(engine.hasMetadata).Some? && k.Some? ==>
            var path := baseFolder + "/" + BufferStem + PathSuffix(engine.files[k.value].path);
            var setup := [add, PrioritizeFiles(OneHot(|engine.files|, k.value)), RenameFile(k.value, path), Resume];
            && (FirstAtLeast(engine.totalDownload, ResumeThreshold).None? ==> run == ScriptRun(setup, BelowGate))
            && (FirstAtLeast(engine.totalDownload, ResumeThreshold).Some? ==>
                  run.actions == setup + [LaunchPlayer(path)]
                  && run.outcome == (if FirstTrue(engine.isSeeding).Some? then Seeding else AwaitingSeeding)))
  {
  }

  /** The script's run, step by step, with the polling loops of the engine module. */
  method RunPlayback(infoHash: string, hint: string, engine: ScriptReadings, baseFolder: string) returns (run: ScriptRun)
    ensures run == Playback(infoHash, hint, engine, baseFolder)
  {
    PlaybackShape(infoHash, hint, engine, baseFolder);
    var actions := [AddTorrent(MagnetLink(infoHash), [], ScriptFlags)];
    var metadataAt := WaitUntil(engine.hasMetadata);
    if metadataAt.None? {
      return ScriptRun(actions, MetadataPending);
    }
    var wanted, extension, priorities := SelectWantedFile(engine.files, hint);
    if wanted.None? {
      return ScriptRun(actions, NoMatchingFile);
    }
    var path := baseFolder + "/" + BufferStem + extension.value;
    actions := actions + [PrioritizeFiles(priorities), RenameFile(wanted.value, path), Resume];
    var resumedAt := WaitUntilAtLeast(engine.totalDownload, ResumeThreshold);
    if resumedAt.None? {
      return ScriptRun(actions, BelowGate);
    }
    actions := actions + [LaunchPlayer(path)];
    var seedingAt := WaitUntil(engine.isSeeding);
    if seedingAt.None? {
      return ScriptRun(actions, AwaitingSeeding);
    }
    return ScriptRun(actions, Seeding);
  }

  /** The player is launched only once a byte-count poll reached 80 KiB with every
      earlier poll below it, and only on the first file with the hinted name. */
  lemma ScriptPlayerAfterGate(infoHash: string, hint: string, engine: ScriptReadings, baseFolder: string, k: nat)
    requires var run := Playback(infoHash, hint, engine, baseFolder);
      k < |run.actions| && run.actions[k].LaunchPlayer?
    ensures var b := FirstAtLeast(engine.totalDownload, ResumeThreshold);
      && b.Some? && engine.totalDownload[b.value] >= ResumeThreshold
      && (forall i :: 0 <= i < b.value ==> engine.totalDownload[i] < ResumeThreshold)
    ensures var w := FirstNamed(engine.files, hint);
      && w.Some? && engine.files[w.value].name == hint
      && Playback(infoHash, hint, engine, baseFolder).actions[k].path
         == baseFolder + "/" + BufferStem + PathSuffix(engine.files[w.value].path)
  {
    PlaybackShape(infoHash, hint, engine, baseFolder);
    assert FirstTrue(engine.hasMetadata).Some? && FirstNamed(engine.files, hint).Some?;
    assert FirstAtLeast(engine.totalDownload, ResumeThreshold).Some?;
    assert k == 4;
  }

  /** Without a file of the hinted name the script stops right after adding the
      torrent: it never sets priorities, renames, resumes or launches. */
  lemma NoMatchStopsEarly(infoHash: string, hint: string, engine: ScriptReadings, baseFolder: string)
    requires FirstTrue(engine.hasMetadata).Some?
    requires forall j :: 0 <= j < |engine.files| ==> engine.files[j].name != hint
    ensures Playback(infoHash, hint, engine, baseFolder)
      == ScriptRun([AddTorrent(MagnetLink(infoHash), [], ScriptFlags)], NoMatchingFile)
  {
  }
}
