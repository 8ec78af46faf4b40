// Acquisition and playback (streaming.py): catalogue search, metadata, stream
// lookup, and start_download's tracker list, priority vector, buffer file and
// polling gates. HTTP responses are given as functions from URL to the parsed
// payload (None where the request or the parse raises); the torrent engine is
// given as the sequences of readings it reports.
module Streaming {
  import opened Wrappers
  import opened PyText
  import opened Videos
  import opened Models
  import opened Engine

  const ContentTypes: seq<string> := ["series", "movie"]
  const CatalogProviderUrl := "https://v3-cinemeta.strem.io"
  const StreamProvidersUrl: seq<string> := ["https://torrentio.strem.fun"]

  // ---------------------------------------------------------------------------
  // Catalogue search
  // ---------------------------------------------------------------------------

  /** The catalogue provider's search URL for one content type. */
  function CatalogUrl(contentType: string, query: string): (url: string)
    ensures StartsWith(url, CatalogProviderUrl + "/catalog/")
    ensures RemovePrefix(url, CatalogProviderUrl + "/catalog/") == contentType + "/top/search=" + query + ".json"
  {
    var head := CatalogProviderUrl + "/catalog/";
    var url := head + (contentType + "/top/search=" + query + ".json");
    RemovePrefixOfConcat(head, contentType + "/top/search=" + query + ".json");
    url
  }

  /** The two content types are distinct keys. */
  lemma ContentTypesDistinct()
    ensures ContentTypes[0] != ContentTypes[1]
  {
    assert ContentTypes[0][0] != ContentTypes[1][0];
  }

  /** `search_catalog`: one entry per content type, holding that type's search
      results; None as soon as one request fails. */
  method SearchCatalog<T>(query: string, fetch: string -> Option<seq<T>>) returns (catalog: Option<map<string, seq<T>>>)
    ensures catalog.Some? <==> forall i :: 0 <= i < |ContentTypes| ==> fetch(CatalogUrl(ContentTypes[i], query)).Some?
    ensures catalog.Some? ==> catalog.value.Keys == set i | 0 <= i < |ContentTypes| :: ContentTypes[i]
    ensures catalog.Some? ==> forall i :: 0 <= i < |ContentTypes| ==>
      catalog.value[ContentTypes[i]] == fetch(CatalogUrl(ContentTypes[i], query)).value
  {
    ContentTypesDistinct();
    var result: map<string, seq<T>> := map[];
    for i := 0 to |ContentTypes|
      invariant result.Keys == set j | 0 <= j < i :: ContentTypes[j]
      invariant forall j :: 0 <= j < i ==> fetch(CatalogUrl(ContentTypes[j], query)).Some?
      invariant forall j :: 0 <= j < i ==> result[ContentTypes[j]] == fetch(CatalogUrl(ContentTypes[j], query)).value
    {
      var entries := fetch(CatalogUrl(ContentTypes[i], query));
      if entries.None? {
        return None;
      }
      result := result[ContentTypes[i] := entries.value];
    }
    return Some(result);
  }

  // ---------------------------------------------------------------------------
  // Metadata
  // ---------------------------------------------------------------------------

  /** The metadata of an entry: its episode list and, for a series, the episodes
      grouped by season number. */
  datatype Metadata = Metadata(videos: seq<Video>, seasons: Option<map<int, seq<Video>>>)

  /** The catalogue provider's metadata URL for one entry. */
  function MetaUrl(contentType: string, imdbId: string): (url: string)
    ensures StartsWith(url, CatalogProviderUrl + "/meta/")
    ensures RemovePrefix(url, CatalogProviderUrl + "/meta/") == contentType + "/" + imdbId + ".json"
  {
    var head := CatalogProviderUrl + "/meta/";
    var url := head + (contentType + "/" + imdbId + ".json");
    RemovePrefixOfConcat(head, contentType + "/" + imdbId + ".json");
    url
  }

  /** `get_metadata`: a series gets its videos grouped under their season keys. */
  method GetMetadata(contentType: string, imdbId: string, fetch: string -> Option<seq<Video>>)
    returns (metadata: Option<Metadata>)
    ensures metadata.Some? <==> fetch(MetaUrl(contentType, imdbId)).Some?
    ensures metadata.Some? ==> metadata.value.videos == fetch(MetaUrl(contentType, imdbId)).value
    ensures metadata.Some? ==> (metadata.value.seasons.Some? <==> contentType == "series")
    ensures metadata.Some? && metadata.value.seasons.Some? ==>
      var videos, seasons := metadata.value.videos, metadata.value.seasons.value;
      seasons.Keys == SeasonKeys(videos) && forall s :: s in seasons ==> seasons[s] == OfSeason(videos, s)
  {
    var payload := fetch(MetaUrl(contentType, imdbId));
    if payload.None? {
      return None;
    }
    var videos := payload.value;
    if contentType == "series" {
      var seasons := GroupBySeason(videos);
      return Some(Metadata(videos, Some(seasons)));
    }
    return Some(Metadata(videos, None));
  }

  // ---------------------------------------------------------------------------
  // Stream lookup
  // ---------------------------------------------------------------------------

  /** What the stream lookup reads of the selected entry; a series carries the
      selected season and episode as text when they are set. */
  datatype EntryData = EntryData(contentType: string, imdbId: string,
                                 selectedSeason: Option<string>, selectedEpisode: Option<string>)

  function OrEmpty(s: Option<string>): string {
    if s.Some? then s.value else ""
  }

  /** The stream item id: the IMDb id, plus season and episode for a series. */
  function ItemId(entry: EntryData): (id: string)
    ensures StartsWith(id, entry.imdbId)
  {
    if entry.contentType == "series" then
      var id := Join([entry.imdbId, OrEmpty(entry.selectedSeason), OrEmpty(entry.selectedEpisode)], ":");
      JoinThree(entry.imdbId, OrEmpty(entry.selectedSeason), OrEmpty(entry.selectedEpisode), ":");
      assert id[..|entry.imdbId|] == entry.imdbId;
      id
    else entry.imdbId
  }

  /** A series item id splits back on ":" into the id, the season and the episode,
      an unset one reading as ""; a movie's item id is its IMDb id. */
  lemma ItemIdSplitsBack(entry: EntryData)
    requires ':' !in entry.imdbId && ':' !in OrEmpty(entry.selectedSeason) && ':' !in OrEmpty(entry.selectedEpisode)
    ensures entry.contentType == "series" ==>
      SplitOn(ItemId(entry), ':') == [entry.imdbId, OrEmpty(entry.selectedSeason), OrEmpty(entry.selectedEpisode)]
    ensures entry.contentType != "series" ==> SplitOn(ItemId(entry), ':') == [entry.imdbId]
  {
    var parts := [entry.imdbId, OrEmpty(entry.selectedSeason), OrEmpty(entry.selectedEpisode)];
    SplitOnOfJoin(parts, ':');
    SplitOnOfJoin([entry.imdbId], ':');
  }

  /** A stream provider's URL for the entry's item id. */
  function StreamUrl(provider: string, entry: EntryData): (url: string)
    ensures StartsWith(url, provider + "/stream/")
    ensures RemovePrefix(url, provider + "/stream/") == entry.contentType + "/" + ItemId(entry) + ".json"
  {
    var head := provider + "/stream/";
    var url := head + (entry.contentType + "/" + ItemId(entry) + ".json");
    RemovePrefixOfConcat(head, entry.contentType + "/" + ItemId(entry) + ".json");
    url
  }

  /** The results of requesting every URL in turn, concatenated; None when one
      request fails. */
  function Collected<T>(urls: seq<string>, fetch: string -> Option<seq<T>>): (r: Option<seq<T>>)
    ensures r.Some? <==> forall i :: 0 <= i < |urls| ==> fetch(urls[i]).Some?
  {
    if urls == [] then Some([])
    else
      var n := |urls| - 1;
      var front, last := Collected(urls[..n], fetch), fetch(urls[n]);
      assert forall i :: 0 <= i < n ==> urls[..n][i] == urls[i];
      if front.Some? && last.Some? then Some(front.value + last.value) else None
  }

  /** `get_available_streams`: extends one list with every provider's streams. */
  method GetAvailableStreams<T>(entry: EntryData, fetch: string -> Option<seq<T>>) returns (streams: Option<seq<T>>)
    ensures streams == Collected(seq(|StreamProvidersUrl|, i requires 0 <= i < |StreamProvidersUrl| =>
                                       StreamUrl(StreamProvidersUrl[i], entry)), fetch)
  {
    ghost var urls := seq(|StreamProvidersUrl|, i requires 0 <= i < |StreamProvidersUrl| =>
                            StreamUrl(StreamProvidersUrl[i], entry));
    var available: seq<T> := [];
    for i := 0 to |StreamProvidersUrl|
      invariant Collected(urls[..i], fetch) == Some(available)
    {
      assert urls[..i + 1][..i] == urls[..i];
      var response := fetch(StreamUrl(StreamProvidersUrl[i], entry));
      if response.None? {
        return None;
      }
      available := available + response.value;
    }
    assert urls[..|urls|] == urls;
    return Some(available);
  }

  /** With the one configured provider, the streams are exactly its response. */
  lemma AvailableStreamsFromOneProvider<T>(entry: EntryData, fetch: string -> Option<seq<T>>)
    ensures Collected(seq(|StreamProvidersUrl|, i requires 0 <= i < |StreamProvidersUrl| =>
                            StreamUrl(StreamProvidersUrl[i], entry)), fetch)
      == fetch(StreamUrl("https://torrentio.strem.fun", entry))
  {
    var urls := seq(|StreamProvidersUrl|, i requires 0 <= i < |StreamProvidersUrl| =>
                      StreamUrl(StreamProvidersUrl[i], entry));
    assert urls[..0] == [];
    var r := fetch(urls[0]);
    if r.Some? {
      assert [] + r.value == r.value;
    }
  }

  // ---------------------------------------------------------------------------
  // The torrent's tracker list
  // ---------------------------------------------------------------------------

  /** The characters of "tracker:", which `lstrip` treats as a set. */
  const TrackerChars: set<char> := {'t', 'r', 'a', 'c', 'k', 'e', ':'}

  lemma TrackerCharsOfPrefix()
    ensures forall i :: 0 <= i < |TrackerPrefix| ==> TrackerPrefix[i] in TrackerChars
  {
  }

  /** What one source adds to the torrent's trackers, as written: a "tracker:"
      source adds its `lstrip`-ed form and then (the second `if` is not an `elif`)
      itself; a "dht:" source adds nothing; any other source adds itself. */
  function TrackerAddition(source: string): seq<string> {
    (if StartsWith(source, TrackerPrefix) then [LStrip(source, TrackerChars)] else []) +
    (if !StartsWith(source, DhtPrefix) then [source] else [])
  }

  function TrackerAdditions(sources: seq<string>): seq<string> {
    if sources == [] then []
    else TrackerAdditions(sources[..|sources| - 1]) + TrackerAddition(sources[|sources| - 1])
  }

  /** `stream_data.get("sources", [])` */
  function SourcesOf(sources: Option<seq<string>>): seq<string> {
    if sources.Some? then sources.value else []
  }

  /** Lines 125-130 of `start_download`: a copy of the session's bootstrap list,
      then each source's additions in order. The bootstrap list is a value, so
      the session's own list cannot change. */
  method BuildTorrentTrackers(bootstrap: seq<string>, sources: Option<seq<string>>) returns (trackers: seq<string>)
    ensures trackers == bootstrap + TrackerAdditions(SourcesOf(sources))
  {
    var all := SourcesOf(sources);
    trackers := bootstrap;
    for i := 0 to |all|
      invariant trackers == bootstrap + TrackerAdditions(all[..i])
    {
      var source := all[i];
      ghost var before := trackers;
      TrackerAdditionsStep(all, i);
      ghost var stripped: seq<string> := [];
      if StartsWith(source, TrackerPrefix) {
        trackers := trackers + [LStrip(source, TrackerChars)];
        stripped := [LStrip(source, TrackerChars)];
      }
      assert trackers == before + stripped;
      if !StartsWith(source, DhtPrefix) {
        trackers := trackers + [source];
      }
      assert trackers == before + TrackerAddition(source);
    }
    assert all[..|all|] == all;
  }

  lemma {:induction false} TrackerAdditionsStep(all: seq<string>, i: nat)
    requires i < |all|
    ensures TrackerAdditions(all[..i + 1]) == TrackerAdditions(all[..i]) + TrackerAddition(all[i])
  {
    assert all[..i + 1][..i] == all[..i];
  }

  lemma {:induction false} TrackerAdditionsAppend(a: seq<string>, b: seq<string>)
    ensures TrackerAdditions(a + b) == TrackerAdditions(a) + TrackerAdditions(b)
    decreases |b|
  {
    if b == [] {
      assert a + b == a;
    } else {
      var n := |b| - 1;
      assert (a + b)[..|a + b| - 1] == a + b[..n];
      TrackerAdditionsAppend(a, b[..n]);
    }
  }

  /** Each source's additions in place, in order: a "tracker:" source adds two
      entries, its `lstrip`-ed form and then itself; a "dht:" source adds nothing;
      any other source adds itself once. */
  lemma TrackerAdditionsAround(a: seq<string>, x: string, b: seq<string>)
    ensures StartsWith(x, TrackerPrefix) ==>
      TrackerAdditions(a + [x] + b) == TrackerAdditions(a) + [LStrip(x, TrackerChars), x] + TrackerAdditions(b)
    ensures StartsWith(x, DhtPrefix) ==>
      TrackerAdditions(a + [x] + b) == TrackerAdditions(a) + TrackerAdditions(b)
    ensures !StartsWith(x, TrackerPrefix) && !StartsWith(x, DhtPrefix) ==>
      TrackerAdditions(a + [x] + b) == TrackerAdditions(a) + [x] + TrackerAdditions(b)
  {
    TrackerAdditionsSplit(a, x, b);
    TrackerAdditionCases(x);
  }

  lemma {:induction false} TrackerAdditionsSplit(a: seq<string>, x: string, b: seq<string>)
    ensures TrackerAdditions(a + [x] + b) == TrackerAdditions(a) + TrackerAddition(x) + TrackerAdditions(b)
  {
    TrackerAdditionsAppend(a + [x], b);
    TrackerAdditionsAppend(a, [x]);
    assert [x][..0] == [];
  }

  lemma TrackerAdditionCases(x: string)
    ensures TrackerAdditions([x]) == TrackerAddition(x)
    ensures StartsWith(x, TrackerPrefix) ==> TrackerAddition(x) == [LStrip(x, TrackerChars), x]
    ensures StartsWith(x, DhtPrefix) ==> TrackerAddition(x) == []
    ensures !StartsWith(x, TrackerPrefix) && !StartsWith(x, DhtPrefix) ==> TrackerAddition(x) == [x]
  {
    PrefixesExclusive(x);
    assert [x][..0] == [];
  }

  /** Where the part after "tracker:" does not begin with one of its letters, as
      with a "udp://", "http://" or "wss://" URL, the strip removes exactly the
      prefix, and the source is still added a second time unchanged. */
  lemma TrackerAdditionOfUrl(x: string)
    requires StartsWith(x, TrackerPrefix)
    requires |x| == |TrackerPrefix| || x[|TrackerPrefix|] !in TrackerChars
    ensures TrackerAddition(x) == NormalizedSource(x) + [x]
  {
    PrefixesExclusive(x);
    TrackerCharsOfPrefix();
    assert x == TrackerPrefix + x[|TrackerPrefix|..];
    LStripAfterRun(TrackerPrefix, x[|TrackerPrefix|..], TrackerChars);
  }

  /** A tracker URL ends up in the torrent twice: once as the URL and once with its
      "tracker:" prefix. */
  lemma {:induction false} TrackerUrlAddedTwice(url: string)
    requires url != [] && url[0] !in TrackerChars
    ensures TrackerAdditions([TrackerPrefix + url]) == [url, TrackerPrefix + url]
  {
    var x := TrackerPrefix + url;
    RemovePrefixOfConcat(TrackerPrefix, url);
    assert x[|TrackerPrefix|] == url[0];
    TrackerAdditionOfUrl(x);
    TrackerAdditionCases(x);
  }

  lemma TrackerAddedTwiceExample()
    ensures TrackerAdditions(["tracker:udp://t.example:1337"])
      == ["udp://t.example:1337", "tracker:udp://t.example:1337"]
  {
    ExampleUrlSpelled();
    TrackerUrlAddedTwice("udp://t.example:1337");
  }

  lemma ExampleUrlSpelled()
    ensures TrackerPrefix + "udp://t.example:1337" == "tracker:udp://t.example:1337"
  {
  }

  /** `lstrip` strips letters of "tracker:" beyond the prefix. */
  lemma TrackerOverStrippedExample()
    ensures TrackerAdditions(["tracker:example.com"]) == ["xample.com", "tracker:example.com"]
  {
    ExampleHostStripped();
    assert StartsWith("tracker:example.com", TrackerPrefix);
    TrackerAdditionCases("tracker:example.com");
  }

  lemma ExampleHostStripped()
    ensures LStrip("tracker:example.com", TrackerChars) == "xample.com"
  {
    assert "tracker:example.com" == "tracker:e" + "xample.com";
    LStripAfterRun("tracker:e", "xample.com", TrackerChars);
  }

  /** The tracker list as evidently intended: the bootstrap list followed by the
      normalised sources, where a "tracker:" source contributes once, with exactly
      its prefix removed. */
  function IntendedTorrentTrackers(bootstrap: seq<string>, sources: Option<seq<string>>): seq<string> {
    bootstrap + NormalizedSources(SourcesOf(sources))
  }

  /** In the intended list a "tracker:" source contributes once, as exactly the
      text after its prefix; how the other sources fare is
      Models.NormalizedSourcesAround. */
  lemma IntendedTrackerSourceOnce(bootstrap: seq<string>, a: seq<string>, x: string, b: seq<string>)
    requires StartsWith(x, TrackerPrefix)
    ensures IntendedTorrentTrackers(bootstrap, Some(a + [x] + b))
      == IntendedTorrentTrackers(bootstrap, Some(a)) + [RemovePrefix(x, TrackerPrefix)] + NormalizedSources(b)
  {
    NormalizedSourcesSplit(a, x, b);
    assert NormalizedSource(x) == [RemovePrefix(x, TrackerPrefix)];
    var na, nb := NormalizedSources(a), NormalizedSources(b);
    assert bootstrap + (na + [RemovePrefix(x, TrackerPrefix)] + nb)
        == (bootstrap + na) + [RemovePrefix(x, TrackerPrefix)] + nb;
  }

  lemma IntendedTrackersExample()
    ensures IntendedTorrentTrackers([], Some(["tracker:example.com"])) == ["example.com"]
  {
    var x := "tracker:example.com";
    assert StartsWith(x, TrackerPrefix);
    assert x == TrackerPrefix + "example.com";
    RemovePrefixOfConcat(TrackerPrefix, "example.com");
    assert [x][..0] == [];
  }

  // ---------------------------------------------------------------------------
  // Priorities and the buffer file
  // ---------------------------------------------------------------------------

  /** The vector of `n` priorities that downloads only file `j`. */
  function OneHot(n: nat, j: nat): (p: seq<int>)
    ensures |p| == n
  {
    seq(n, i requires 0 <= i < n => if i == j then 1 else 0)
  }

  /** How many entries of `s` equal `v`. */
  function Count(s: seq<int>, v: int): (c: nat)
    ensures c <= |s|
  {
    if s == [] then 0 else Count(s[..|s| - 1], v) + (if s[|s| - 1] == v then 1 else 0)
  }

  /** The one-hot vector holds exactly one 1 and zeros elsewhere. */
  lemma {:induction false} OneHotCounts(n: nat, j: nat)
    requires j < n
    ensures Count(OneHot(n, j), 1) == 1 && Count(OneHot(n, j), 0) == n - 1
  {
    if n - 1 == j {
      NoOnes(n - 1, j);
      assert OneHot(n, j)[..n - 1] == OneHot(n - 1, j);
    } else {
      OneHotCounts(n - 1, j);
      assert OneHot(n, j)[..n - 1] == OneHot(n - 1, j);
    }
  }

  /** Before position `j` the vector is all zeros. */
  lemma {:induction false} NoOnes(n: nat, j: nat)
    requires n <= j
    ensures Count(OneHot(n, j), 1) == 0 && Count(OneHot(n, j), 0) == n
  {
    if n > 0 {
      NoOnes(n - 1, j);
      assert OneHot(n, j)[..n - 1] == OneHot(n - 1, j);
    }
  }

  /** Lines 148-150 of `start_download`: `[0] * num_files`, then a 1 at
      `fileIdx`, which Python indexes from the end when negative; None where it
      raises IndexError. */
  method OneHotPriorities(numFiles: nat, fileIdx: int) returns (priorities: Option<seq<int>>)
    ensures priorities.None? <==> PyIndex(fileIdx, numFiles).None?
    ensures priorities.Some? ==> priorities.value == OneHot(numFiles, PyIndex(fileIdx, numFiles).value)
  {
    var a := new int[numFiles](_ => 0);
    var j := PyIndex(fileIdx, numFiles);
    if j.None? {
      return None;
    }
    a[j.value] := 1;
    return Some(a[..]);
  }

  const BufferStem := "stream_buffer"

  /** The buffer file's name: the stem with the stream file's suffix. */
  function BufferFileName(filename: string): (name: string)
    ensures StartsWith(name, BufferStem) && RemovePrefix(name, BufferStem) == PathSuffix(filename)
  {
    RemovePrefixOfConcat(BufferStem, PathSuffix(filename));
    BufferStem + PathSuffix(filename)
  }

  /** The buffer file keeps the stream file's extension, which the player relies on. */
  lemma BufferKeepsSuffix(filename: string)
    ensures PathSuffix(BufferFileName(filename)) == PathSuffix(filename)
    ensures StartsWith(BufferFileName(filename), BufferStem)
  {
    assert '.' !in BufferStem && '/' !in BufferStem;
    SuffixOfStemAndSuffix(BufferStem, filename);
    RemovePrefixOfConcat(BufferStem, PathSuffix(filename));
  }

  /** `BASE_FOLDER / name` */
  function BufferPath(baseFolder: string, filename: string): (path: string)
    ensures StartsWith(path, baseFolder + "/") && RemovePrefix(path, baseFolder + "/") == BufferFileName(filename)
  {
    RemovePrefixOfConcat(baseFolder + "/", BufferFileName(filename));
    baseFolder + "/" + BufferFileName(filename)
  }

  /** The buffering gate: 50 MiB. */
  const BufferThreshold := 50 * 1024 * 1024

  // ---------------------------------------------------------------------------
  // start_download
  // ---------------------------------------------------------------------------

  /** What `start_download` reads of the chosen stream. */
  datatype StreamData = StreamData(infoHash: string, fileIdx: int, sources: Option<seq<string>>, filename: string)

  /** What the engine reports: metadata polls, the torrent's file count, and
      byte-count polls after the setup. */
  datatype TorrentReadings = TorrentReadings(hasMetadata: seq<bool>, numFiles: nat, totalDownload: seq<int>)

  /** How a run ends: completed, still waiting for metadata or for the buffer
      when the readings run out, or an IndexError on the priority vector. */
  datatype DownloadOutcome = Finished | AwaitingMetadata | BadFileIndex | Buffering

  datatype DownloadRun = DownloadRun(actions: seq<Action>, outcome: DownloadOutcome)

  const DownloadFlags: set<Flag> := {SequentialDownload, UploadMode}

  /** The torrent as `start_download` adds it: the stream's magnet link, the
      assembled tracker list, sequential download in upload mode. */
  function AddRequest(bootstrap: seq<string>, stream: StreamData): (add: Action)
    ensures add.AddTorrent? && StartsWith(add.magnet, MagnetPrefix)
    ensures RemovePrefix(add.magnet, MagnetPrefix) == stream.infoHash
    ensures |add.trackers| >= |bootstrap| && add.trackers[..|bootstrap|] == bootstrap
    ensures add.flags == {SequentialDownload, UploadMode} && Paused !in add.flags
  {
    var trackers := bootstrap + TrackerAdditions(SourcesOf(stream.sources));
    assert trackers[..|bootstrap|] == bootstrap;
    AddTorrent(MagnetLink(stream.infoHash), trackers, DownloadFlags)
  }

  /** Between the metadata and the buffering gate: an old buffer file is deleted,
      only the stream's file is wanted and renamed to the buffer path, and upload
      mode is left. */
  function SetupActions(path: string, existing: set<string>, priorities: seq<int>, fileIdx: int): (setup: seq<Action>)
    ensures |setup| == (if path in existing then 4 else 3)
    ensures setup[|setup| - 1] == UnsetUploadMode && setup[|setup| - 3] == PrioritizeFiles(priorities)
    ensures setup[|setup| - 2] == RenameFile(fileIdx, path)
    ensures forall i :: 0 <= i < |setup| ==> !setup[i].LaunchPlayer? && !setup[i].AddTorrent?
    ensures forall i :: 0 <= i < |setup| && setup[i].PrioritizeFiles? ==> setup[i].priorities == priorities
    ensures path in existing <==> setup[0] == DeleteFile(path)
  {
    (if path in existing then [DeleteFile(path)] else []) +
    [PrioritizeFiles(priorities), RenameFile(fileIdx, path), UnsetUploadMode]
  }

  lemma SetupActionsSpelled(add: Action, path: string, existing: set<string>, priorities: seq<int>, fileIdx: int,
                            stale: seq<Action>, steps: seq<Action>)
    requires stale == if path in existing then [DeleteFile(path)] else []
    requires steps == [PrioritizeFiles(priorities), RenameFile(fileIdx, path), UnsetUploadMode]
    ensures [add] + SetupActions(path, existing, priorities, fileIdx) == [add] + stale + steps
  {
  }

  /** After the gate: play the buffer, wait for the player, remove the torrent,
      delete the buffer. */
  function PlaybackActions(path: string): seq<Action> {
    [LaunchPlayer(path), WaitForPlayer, RemoveTorrent, DeleteFile(path)]
  }

  /** The requests `start_download` makes, in order, and where it stops. */
  function Download(bootstrap: seq<string>, stream: StreamData, engine: TorrentReadings,
                    existing: set<string>, baseFolder: string): (run: DownloadRun)
    ensures |run.actions| >= 1 && run.actions[0] == AddRequest(bootstrap, stream)
  {
    var add := AddRequest(bootstrap, stream);
    var j := PyIndex(stream.fileIdx, engine.numFiles);
    if FirstTrue(engine.hasMetadata).None? then DownloadRun([add], AwaitingMetadata)
    else if j.None? then DownloadRun([add], BadFileIndex)
    else
      var path := BufferPath(baseFolder, stream.filename);
      var setup := [add] + SetupActions(path, existing, OneHot(engine.numFiles, j.value), stream.fileIdx);
      if FirstAtLeast(engine.totalDownload, BufferThreshold).None? then DownloadRun(setup, Buffering)
      else DownloadRun(setup + PlaybackActions(path), Finished)
  }

  /** `start_download`, step by step, with the polling loops of the engine module. */
  method StartDownload(bootstrap: seq<string>, stream: StreamData, engine: TorrentReadings,
                       existing: set<string>, baseFolder: string) returns (run: DownloadRun)
    ensures run == Download(bootstrap, stream, engine, existing, baseFolder)
  {
    var magnet := MagnetLink(stream.infoHash);
    var trackers := BuildTorrentTrackers(bootstrap, stream.sources);
    var add := AddTorrent(magnet, trackers, DownloadFlags);
    assert add == AddRequest(bootstrap, stream);
    var actions := [add];
    var metadataAt := WaitUntil(engine.hasMetadata);
    if metadataAt.None? {
      return DownloadRun(actions, AwaitingMetadata);
    }
    var priorities := OneHotPriorities(engine.numFiles, stream.fileIdx);
    if priorities.None? {
      return DownloadRun(actions, BadFileIndex);
    }
    var path := BufferPath(baseFolder, stream.filename);
    ghost var stale: seq<Action> := [];
    if path in existing {
      actions := actions + [DeleteFile(path)];
      stale := [DeleteFile(path)];
    }
    assert actions == [add] + stale;
    var steps := [PrioritizeFiles(priorities.value), RenameFile(stream.fileIdx, path), UnsetUploadMode];
    actions := actions + steps;
    assert actions == [add] + stale + steps;
    SetupActionsSpelled(add, path, existing, priorities.value, stream.fileIdx, stale, steps);
    var bufferedAt := WaitUntilAtLeast(engine.totalDownload, BufferThreshold);
    if bufferedAt.None? {
      return DownloadRun(actions, Buffering);
    }
    actions := actions + [LaunchPlayer(path), WaitForPlayer, RemoveTorrent, DeleteFile(path)];
    return DownloadRun(actions, Finished);
  }

  /** The player is launched only in a finished run: after the metadata arrived and
      a byte-count poll reached 50 MiB with every earlier poll below it, and right
      after the priorities, the rename and the switch out of upload mode. */
  lemma PlayerOnlyAfterBuffering(bootstrap: seq<string>, stream: StreamData, engine: TorrentReadings,
                                 existing: set<string>, baseFolder: string, k: nat)
    requires var run := Download(bootstrap, stream, engine, existing, baseFolder);
      k < |run.actions| && run.actions[k].LaunchPlayer?
    ensures var run := Download(bootstrap, stream, engine, existing, baseFolder);
      && run.outcome == Finished
      && FirstTrue(engine.hasMetadata).Some?
      && var b := FirstAtLeast(engine.totalDownload, BufferThreshold);
      && b.Some? && engine.totalDownload[b.value] >= BufferThreshold
      && (forall i :: 0 <= i < b.value ==> engine.totalDownload[i] < BufferThreshold)
      && k >= 3 && run.actions[k - 1] == UnsetUploadMode && run.actions[k - 3].PrioritizeFiles?
      && run.actions[k - 2] == RenameFile(stream.fileIdx, run.actions[k].path)
      && run.actions[k].path == BufferPath(baseFolder, stream.filename)
  {
    var run := Download(bootstrap, stream, engine, existing, baseFolder);
    var add := AddRequest(bootstrap, stream);
    var j := PyIndex(stream.fileIdx, engine.numFiles);
    DownloadShape(bootstrap, stream, engine, existing, baseFolder);
    assert FirstTrue(engine.hasMetadata).Some? && j.Some?;
    var path := BufferPath(baseFolder, stream.filename);
    var setup := SetupActions(path, existing, OneHot(engine.numFiles, j.value), stream.fileIdx);
    var tail := if FirstAtLeast(engine.totalDownload, BufferThreshold).Some? then PlaybackActions(path) else [];
    LaunchAfterSetup(add, setup, tail, path, k);
  }

  /** A run that stops before the setup holds the add request alone; otherwise it is
      the add request, the setup, and the playback steps exactly when the buffer
      filled. */
  lemma DownloadShape(bootstrap: seq<string>, stream: StreamData, engine: TorrentReadings,
                      existing: set<string>, baseFolder: string)
    ensures var run := Download(bootstrap, stream, engine, existing, baseFolder);
      var j := PyIndex(stream.fileIdx, engine.numFiles);
      (FirstTrue(engine.hasMetadata).None? || j.None?) ==> run.actions == [AddRequest(bootstrap, stream)]
    ensures var run := Download(bootstrap, stream, engine, existing, baseFolder);
      var j := PyIndex(stream.fileIdx, engine.numFiles);
      var path := BufferPath(baseFolder, stream.filename);
      (FirstTrue(engine.hasMetadata).Some? && j.Some?) ==>
        run.actions == [AddRequest(bootstrap, stream)]
          + SetupActions(path, existing, OneHot(engine.numFiles, j.value), stream.fileIdx)
          + (if FirstAtLeast(engine.totalDownload, BufferThreshold).Some? then PlaybackActions(path) else [])
  {
  }

  /** Where the player can sit in a run made of the add request, the setup and
      either nothing or the playback steps. */
  lemma LaunchAfterSetup(add: Action, setup: seq<Action>, tail: seq<Action>, path: string, k: nat)
    requires !add.LaunchPlayer? && |setup| >= 3
    requires forall i :: 0 <= i < |setup| ==> !setup[i].LaunchPlayer?
    requires tail == [] || tail == PlaybackActions(path)
    requires var actions := [add] + setup + tail; k < |actions| && actions[k].LaunchPlayer?
    ensures tail != [] && k == 1 + |setup|
    ensures var actions := [add] + setup + tail;
      && actions[k - 1] == setup[|setup| - 1] && actions[k - 2] == setup[|setup| - 2]
      && actions[k - 3] == setup[|setup| - 3] && actions[k] == tail[0]
  {
    var actions := [add] + setup + tail;
    forall i | 0 <= i < |actions| && i != 1 + |setup|
      ensures !actions[i].LaunchPlayer?
    {
      if i == 0 {
        assert actions[i] == add;
      } else if i <= |setup| {
        assert actions[i] == setup[i - 1];
      } else {
        assert actions[i] == tail[i - 1 - |setup|];
      }
    }
    assert actions[k - 1] == setup[|setup| - 1] && actions[k - 2] == setup[|setup| - 2];
    assert actions[k - 3] == setup[|setup| - 3] && actions[k] == tail[0];
  }

  /** A run ends with the player, the wait, the torrent's removal and the buffer's
      deletion exactly when it is finished. */
  lemma FinishedRunCleansUp(bootstrap: seq<string>, stream: StreamData, engine: TorrentReadings,
                            existing: set<string>, baseFolder: string)
    ensures var run := Download(bootstrap, stream, engine, existing, baseFolder);
      var n := |run.actions|;
      run.outcome == Finished <==>
        (n >= 4 && run.actions[n - 4..] == PlaybackActions(BufferPath(baseFolder, stream.filename)))
  {
  }

  /** Whenever the run sets priorities, it wants only the stream's file: the vector
      has one entry per file, a single 1 at the stream's index, 0 elsewhere. */
  lemma DownloadPrioritiesOneHot(bootstrap: seq<string>, stream: StreamData, engine: TorrentReadings,
                                 existing: set<string>, baseFolder: string, k: nat)
    requires var run := Download(bootstrap, stream, engine, existing, baseFolder);
      k < |run.actions| && run.actions[k].PrioritizeFiles?
    ensures PyIndex(stream.fileIdx, engine.numFiles).Some?
    ensures var p := Download(bootstrap, stream, engine, existing, baseFolder).actions[k].priorities;
      var j := PyIndex(stream.fileIdx, engine.numFiles).value;
      |p| == engine.numFiles && p[j] == 1 && Count(p, 1) == 1 && Count(p, 0) == engine.numFiles - 1
  {
    var run := Download(bootstrap, stream, engine, existing, baseFolder);
    var add := AddRequest(bootstrap, stream);
    var j := PyIndex(stream.fileIdx, engine.numFiles);
    DownloadShape(bootstrap, stream, engine, existing, baseFolder);
    assert FirstTrue(engine.hasMetadata).Some? && j.Some?;
    var path := BufferPath(baseFolder, stream.filename);
    var p := OneHot(engine.numFiles, j.value);
    var setup := SetupActions(path, existing, p, stream.fileIdx);
    var tail := if FirstAtLeast(engine.totalDownload, BufferThreshold).Some? then PlaybackActions(path) else [];
    PrioritiesInSetup(add, setup, tail, path, p, k);
    OneHotCounts(engine.numFiles, j.value);
  }

  /** The only priorities in a run made of the add request, the setup and either
      nothing or the playback steps are those of the setup. */
  lemma PrioritiesInSetup(add: Action, setup: seq<Action>, tail: seq<Action>, path: string, p: seq<int>, k: nat)
    requires !add.PrioritizeFiles?
    requires forall i :: 0 <= i < |setup| && setup[i].PrioritizeFiles? ==> setup[i].priorities == p
    requires tail == [] || tail == PlaybackActions(path)
    requires var actions := [add] + setup + tail; k < |actions| && actions[k].PrioritizeFiles?
    ensures ([add] + setup + tail)[k].priorities == p
  {
    var actions := [add] + setup + tail;
    forall i | 0 <= i < |actions|
      ensures actions[i].PrioritizeFiles? ==> actions[i].priorities == p
    {
      if i == 0 {
        assert actions[i] == add;
      } else if i <= |setup| {
        assert actions[i] == setup[i - 1];
      } else {
        assert actions[i] == tail[i - 1 - |setup|];
      }
    }
  }

  /** An old buffer file at the buffer path is deleted right after the torrent is
      added, before its file is renamed to that path. */
  lemma StaleBufferDeletedFirst(bootstrap: seq<string>, stream: StreamData, engine: TorrentReadings,
                                existing: set<string>, baseFolder: string)
    ensures var run := Download(bootstrap, stream, engine, existing, baseFolder);
      var path := BufferPath(baseFolder, stream.filename);
      |run.actions| > 1 ==> (path in existing <==> run.actions[1] == DeleteFile(path))
  {
  }
}
