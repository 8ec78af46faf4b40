# stremtui core, modelled in Dafny

stremtui is a terminal client for Stremio-style add-ons. It searches the Cinemeta
catalogue, fetches an entry's metadata (a series' episodes grouped by season), asks the
Torrentio add-on for streams, and plays a stream by downloading its torrent
sequentially into a buffer file and opening that file in mpv once enough of it has
arrived. This project models the deterministic logic around the network, the torrent
engine and the player, and proves properties of it:

- `models.py`, the payload models:
  - the episode coordinate validator;
  - the grouping of a series' videos into numbered season buckets and specials, and the
    `len`/indexing of the result;
  - the stream's magnet link and its source normalisation.
- `streaming.py`, the acquisition code:
  - the daily tracker-list cache in `get_bootstrap_trackers`, with the cache file
    modelled as a class whose `r+` handle reads, seeks and writes in place without
    truncating;
  - `search_catalog`, `get_metadata` and its season grouping, and
    `get_available_streams` with its item id;
  - `start_download`: the torrent's tracker list, the one-hot priority vector, the buffer
    file name, the stale-buffer deletion, the metadata and 50 MiB polling loops, and the
    requests made of the engine, the player and the file system, in order.
- `main.py`, the earlier command-line script:
  - the file selection by exact name;
  - the season grouping and the series item id;
  - the playback run with its 80 KiB gate.

The model is organised as follows:

- The network is a parameter: a function from URL to the parsed payload, or the outcome
  of the one tracker-list request.
- The engine is the sequence of status readings it reports.
- A run of `start_download` or of the script is the list of requests it makes, each an
  `Engine.Action`: add torrent, delete file, prioritise, rename, leave upload mode,
  resume, launch the player, wait for it, remove the torrent. The run also records
  where it stops.
- Loops in the source are methods with loop invariants (`Models.NormalizeSources`,
  `Streaming.BuildTorrentTrackers`, `Script.SelectWantedFile`, ...). Each is proved equal
  to a specification function, and the lemmas are about those functions.

Python's own string and path behaviour is written out in `PyText`:

- `startswith` and `removeprefix`;
- `lstrip` with a character set;
- `strip`, `split()` and `splitlines()`;
- universal-newline `readline`/`read`;
- `":".join` and `split(":")`;
- `PurePosixPath.name`/`.suffix`;
- negative list indexing;
- `f"{int}"`.

Files:

| file | module | models |
|---|---|---|
| wrappers.dfy | Wrappers, Subsequences | Option/Result; order-preserving selection |
| pytext.dfy | PyText | Python `str`/`pathlib` behaviour used by the core |
| engine.dfy | Engine | engine requests, polling loops |
| videos.dfy | Videos | the `defaultdict(list)` season grouping |
| models.dfy | Models | models.py |
| tracker_cache.dfy | TrackerCache | `get_bootstrap_trackers` |
| streaming.dfy | Streaming | the rest of streaming.py |
| script.dfy | Script | main.py |

The model follows the code where a fail-soft or concurrent reading might be expected:

- a request error other than an HTTP status error escapes `get_bootstrap_trackers`
  (`TransportFailure`);
- the catalogue and stream requests are made one after another, and one failure fails
  the whole call;
- the last `unlink` of `start_download` is not guarded.

## Model

| member | source | states |
|---|---|---|
| Models.ParseCoordinate | models.py:45-49 | without the guard key the payload passes unchanged; with it, success exactly when "season" and "episode" are both text, and then the payload gains "coordinate" = season + ":" + episode with every other key kept; otherwise KeyError or TypeError in the order Python evaluates the operands |
| Models.CoordinateSplitsBack | models.py:47 | a coordinate made from colon-free parts splits on ":" back into the season and the episode |
| Models.EpisodePayloadGetsNoCoordinate | models.py:46 | a payload with "season" and "episode" keys but no tuple key, numeric as the catalogue sends them or text, passes through without a coordinate |
| Models.ParseCoordinateByKeys | models.py:46-47 | with the guard fixed and the concatenation kept: a missing key leaves the payload unchanged; with both keys, success exactly when both are text (else TypeError), and then the payload gains exactly "coordinate" = season + ":" + episode, every other key kept and no other key added |
| Models.EpisodePayloadGetsCoordinate | models.py:46-47 | with the guard fixed, {"season": "1", "episode": "2"} becomes exactly that payload plus "coordinate" = "1:2" |
| Models.NumericPayloadFailsByKeys | models.py:47 | with the guard fixed, `+` on the numeric {"season": 1, "episode": 2} still raises TypeError |
| Models.ParseCoordinateFormatted | models.py:46-47 | as intended, `f"{season}:{episode}"`: a missing key leaves the payload unchanged; with both keys, success exactly when each value is text or a number, and then the payload gains exactly a text "coordinate" (beginning with a text season and ":"), every other key kept and no other key added |
| Models.NumericCoordinateReadsBack | models.py:46-47 | as intended, a numeric season and episode give a coordinate that splits on ":" into two decimal texts which `int()` reads back as the season and the episode |
| Models.NumericPayloadGetsCoordinate | models.py:46-47 | as intended, {"season": 1, "episode": 2} becomes exactly that payload plus "coordinate" = "1:2" |
| Models.NumberedCount | models.py:71-72 | the bucket count exceeds every season number and, when positive, is one more than a season that occurs |
| Models.FilterVideosIntoNumberedAndSpecials | models.py:59-78 | the loop with its padding `while` computes exactly `Grouped`: specials are the season -1 videos, bucket s the season s videos, one bucket per number up to the highest, and the specials flag |
| Models.GroupedPlacement | models.py:64-74 | a season -1 video is among the specials and sets the flag; a season s >= 0 video lies in bucket s, which exists |
| Models.GroupedSnocSpecial | models.py:66-69 | one more special is appended to the specials and sets the flag, leaving the buckets unchanged |
| Models.GroupedSnocNumbered | models.py:71-74 | one more season s video is appended to the end of bucket s; the count becomes max(s+1, old count), new buckets are empty, all other buckets and the specials unchanged |
| Models.GroupedConserves | models.py:62-76 | the specials plus the bucket sizes add up to the number of videos |
| Models.GroupedKeepsOrder | models.py:64-74 | each bucket, and the specials, is the in-order selection of that season's videos from the input |
| Models.GroupedFillsGaps | models.py:71-72 | a season below the count that no video has is an empty bucket, and the last bucket's season occurs |
| Models.GroupedExample | models.py:64-76 | seasons -1, 0, 1, 3 give specials [a] and buckets [[b], [c], [], [d]] |
| Models.GroupedAccessors | models.py:83-87 | `len` is the bucket count, `seasons[s]` is bucket s below it, and the count itself is an IndexError |
| Models.Seasons.Length | models.py:86-87 | `len(seasons)` agrees with indexing: `seasons[i]` is defined for i >= 0 exactly when i < len, and for i < 0 exactly when -i <= len |
| Models.Seasons.Get | models.py:83-84 | Python indexing of the buckets: defined exactly on -len..len-1, negative numbers counting from the end |
| Models.MagnetLink | models.py:112-113 | the link starts with "magnet:?xt=urn:btih:" and removing that prefix gives the info hash back |
| Models.PrefixesExclusive | models.py:120-122 | no source starts with both "tracker:" and "dht:" |
| Models.NormalizeSources | models.py:117-124 | the loop computes the normalised list `NormalizedSources` |
| Models.NormalizedSourcesAround | models.py:119-123 | in any position, a "tracker:" source contributes exactly the text after that prefix, a "dht:" source nothing, any other source itself, with the neighbours' contributions around it |
| Models.NormalizedSourcesSelects | models.py:118-124 | the output is the in-order selection of the non-"dht:" inputs after prefix removal, so no longer than the input |
| Models.NormalizedSourcesExample | models.py:117-124 | ["tracker:udp://a", "dht:x", "udp://peer1"] normalises to ["udp://a", "udp://peer1"] |
| Videos.OfSeason | streaming.py:93-94 | a season's list holds only videos of that season and no more than the input |
| Videos.OfSeasonSelects | streaming.py:93-94 | a season's list is the in-order selection of that season's videos |
| Videos.NoneSelected | main.py:39 | a season that no video has reads as the empty list |
| Videos.GroupBySeason | streaming.py:92-94 | the keys are exactly the seasons that occur, each mapped to its videos in input order |
| Videos.GroupStep | streaming.py:94 | one append into the default dictionary keeps the grouping exact for the longer input |
| Videos.GroupedUnderOwnSeason | streaming.py:92-94 | after grouping every video is in the list under its own season key |
| Streaming.SearchCatalog | streaming.py:74-83 | succeeds exactly when both content-type requests do; the keys are "series" and "movie", each holding its own request's results |
| Streaming.GetMetadata | streaming.py:86-96 | succeeds exactly when the request does; keeps the videos; a season grouping is added exactly for a series, with keys the seasons that occur and each season's videos in order |
| Streaming.CatalogUrl | streaming.py:78-80 | the search URL lies under the provider's "/catalog/" path, followed by the content type, "/top/search=", the query and ".json" |
| Streaming.MetaUrl | streaming.py:87-89 | the metadata URL lies under the provider's "/meta/" path, followed by the type, "/", the IMDb id and ".json" |
| Streaming.ItemId | streaming.py:100-109 | the item id starts with the IMDb id |
| Streaming.ItemIdSplitsBack | streaming.py:100-109 | a series id splits on ":" into IMDb id, season, episode (unset ones as ""); a movie id is the IMDb id alone |
| Streaming.StreamUrl | streaming.py:114-116 | the stream URL lies under the provider's "/stream/" path, followed by the type, "/", the item id and ".json" |
| Streaming.Collected | streaming.py:111-117 | the collected streams exist exactly when every provider's request succeeds |
| Streaming.GetAvailableStreams | streaming.py:99-119 | the loop's `extend`s give the providers' streams concatenated in order, None on a failed request |
| Streaming.AvailableStreamsFromOneProvider | streaming.py:15 | with the single Torrentio provider the streams are exactly its response |
| Streaming.BuildTorrentTrackers | streaming.py:125-130 | the list is the bootstrap list unchanged, followed by each source's additions in order |
| Streaming.TrackerAdditionCases | streaming.py:127-130 | a "tracker:" source adds its `lstrip`-ed form and itself, a "dht:" source nothing, any other itself |
| Streaming.TrackerAdditionsAround | streaming.py:126-130 | the same, for a source at any position among others |
| Streaming.TrackerAdditionOfUrl | streaming.py:127-130 | when the text after "tracker:" does not start with one of its letters, the strip removes exactly the prefix and the raw source follows |
| Streaming.TrackerUrlAddedTwice | streaming.py:127-130 | a "tracker:" URL ends up in the torrent's list twice, once bare and once prefixed |
| Streaming.TrackerAddedTwiceExample | streaming.py:129 | "tracker:udp://t.example:1337" adds "udp://t.example:1337" and itself |
| Streaming.TrackerOverStrippedExample | streaming.py:128 | "tracker:example.com" is stripped to "xample.com" |
| Streaming.IntendedTrackerSourceOnce | streaming.py:126-130 | in the intended list a "tracker:" source contributes once, exactly the text after its prefix |
| Streaming.IntendedTrackersExample | streaming.py:128 | the intended list for "tracker:example.com" is ["example.com"] |
| Streaming.OneHotCounts | streaming.py:148-150 | the vector holds exactly one 1 and n-1 zeros |
| Streaming.OneHotPriorities | streaming.py:148-150 | an IndexError exactly when `fileIdx` is outside -n..n-1; otherwise one entry per file, 1 at the (Python-resolved) index, 0 elsewhere |
| Streaming.BufferKeepsSuffix | streaming.py:151-153 | the buffer name starts with "stream_buffer" and has the stream file's suffix |
| Streaming.BufferFileName | streaming.py:151-153 | the buffer name is "stream_buffer" followed by exactly the stream file's suffix |
| Streaming.BufferPath | streaming.py:153 | the buffer path is the base folder, "/", and the buffer name |
| Streaming.AddRequest | streaming.py:123-138 | the torrent is added by the magnet link of the stream's info hash (the link starts with "magnet:?xt=urn:btih:" and the rest is the hash), its trackers start with the unchanged bootstrap list, and the flags it adds are sequential download and upload mode; paused is not among them |
| Streaming.SetupActions | streaming.py:154-159 | a stale buffer is deleted first exactly when it exists, and the setup is four actions then, three otherwise; then the priorities, the rename of the stream's file to the buffer path, and leaving upload mode last; no launch and no add |
| Streaming.Download | streaming.py:122-168 | every run begins with adding the magnet link with the assembled trackers, sequential and in upload mode |
| Streaming.StartDownload | streaming.py:122-168 | the method with its polling loops is exactly the run `Download` |
| Streaming.DownloadShape | streaming.py:138-168 | the run stops after the add when metadata never arrives or the index is bad; otherwise add, setup, and the playback steps exactly when a poll reached 50 MiB |
| Streaming.PlayerOnlyAfterBuffering | streaming.py:157-165 | a launch happens only in a finished run, after the metadata and after the first poll at or above 50 MiB (all earlier polls below), right after the priorities, the rename of the stream's file to the very path the player opens (the buffer path), and leaving upload mode |
| Streaming.FinishedRunCleansUp | streaming.py:165-168 | a run ends with launch, wait, torrent removal and buffer deletion exactly when it is finished |
| Streaming.DownloadPrioritiesOneHot | streaming.py:148-157 | any priorities the run sets have one entry per file, a single 1 at the stream's index and 0 elsewhere |
| Streaming.StaleBufferDeletedFirst | streaming.py:153-158 | the action after the add is the buffer's deletion exactly when a file is at the buffer path |
| Engine.FirstTrue | streaming.py:141-143 | the metadata loop stops at the first true reading, every earlier one false; None when all are false |
| Engine.FirstAtLeast | streaming.py:161-163 | the byte-count loop stops at the first reading at or above the threshold, every earlier one below; None when all are below |
| Engine.WaitUntil | streaming.py:141-143 | the polling loop stops where `FirstTrue` says |
| Engine.WaitUntilAtLeast | streaming.py:161-163 | the polling loop stops where `FirstAtLeast` says |
| TrackerCache.Overwrite | streaming.py:44-45 | a write at an offset keeps what lies before it, places the text, and keeps whatever lies beyond its end |
| TrackerCache.OverwriteFromStart | streaming.py:44-45 | a write from offset 0 gives the text followed by the old characters beyond it |
| TrackerCache.BootstrapStep | streaming.py:27-57 | a request is made exactly when the file is absent or its date is not today; without one the file is unchanged and the cached lines are returned; a fetched list is returned as `split()` of the text and the file becomes the date line and the text, written over the old file from offset 0 when there was one; on an HTTP failure the cached lines (or `[]` with a new empty file) are returned and an existing file is unchanged; after a request nothing is returned exactly on a transport failure, which leaves the file as the HTTP failure does; a file always exists afterwards |
| TrackerCache.CacheFile.constructor | streaming.py:31 | the file holds the given contents, or is absent |
| TrackerCache.CacheFile.Contents | streaming.py:31 | the file's contents exist exactly when the file does |
| TrackerCache.CacheFile.OpenForUpdate | streaming.py:31 | `open(..., "r+")` finds the file exactly when it exists and starts at offset 0 without changing it |
| TrackerCache.CacheFile.OpenForWriting | streaming.py:48 | `open(..., "w")` creates or empties the file |
| TrackerCache.CacheFile.ReadLine | streaming.py:32 | `readline()` returns the next line as text mode reads it and advances past it |
| TrackerCache.CacheFile.Read | streaming.py:33 | `read()` returns the rest with newlines translated and moves to the end |
| TrackerCache.CacheFile.SeekStart | streaming.py:44 | `seek(0)` moves to offset 0 and changes nothing else |
| TrackerCache.CacheFile.Write | streaming.py:45 | `write` overwrites from the offset without truncating and advances past the text |
| TrackerCache.Fetcher.Get | streaming.py:38-40 | each request receives the response and is logged |
| TrackerCache.GetBootstrapTrackers | streaming.py:27-57 | the method returns, leaves in the file, and requests exactly what `BootstrapStep` says |
| TrackerCache.ReadCache | streaming.py:32-33 | the date read back is stripped (no whitespace at either end) and no cached entry holds a line break |
| TrackerCache.DateLineReadsBack | streaming.py:32-33 | a file beginning with a whitespace-free date line is read back with that date |
| TrackerCache.DatedListReadsBack | streaming.py:32-35 | a date line followed by whitespace-free lines reads back as that date and exactly those lines |
| TrackerCache.RefreshedFile | streaming.py:44-45 | a refresh leaves the date line, the fetched text, and the old file's characters beyond them |
| TrackerCache.SameDayCallIsHit | streaming.py:32-46 | after a successful refresh or a hit, a second call on the same day makes no request |
| TrackerCache.SameDayRereadKeepsBlankLines | streaming.py:33-46 | the refresh returns the non-blank lines of the fetched list, the same-day re-read all of them, blank ones included |
| TrackerCache.BlankLineExample | streaming.py:33-57 | "a\n\nb\n" is returned as ["a", "b"] on the refresh and as ["a", "", "b"] later that day |
| TrackerCache.StaleTailExample | streaming.py:44-46 | a stale file longer than the new list keeps its tail, which the same-day re-read returns as a tracker the refresh never returned |
| TrackerCache.BootstrapStepIntended | streaming.py:27-57 | the cache as intended: a request exactly when the file is absent or stale; a refresh returns `split()` of the text and replaces the whole file by the date line and those trackers, one per line; without a request the file is unchanged and dated today and the cached list is returned; on an HTTP failure the cached list or [] is returned, on a transport failure nothing, and in both the file is unchanged or a new empty file, as in `BootstrapStep` |
| TrackerCache.IntendedSameDayAgrees | streaming.py:34-35 | with the intended cache, a later call on the same day makes no request and returns what the earlier call returned |
| Script.FirstNamed | main.py:72-77 | the index found is the first file with exactly the hinted name; None when no file has it |
| Script.Zeros | main.py:71 | `[0] * n` has n entries, all 0 |
| Script.SelectWantedFile | main.py:71-77 | the wanted index is the first file with the hinted name, its path gives the extension and the priorities are one-hot there; without a match nothing is chosen and all priorities are 0 |
| Script.SelectedPrioritiesAtMostOne | main.py:71-77 | the chosen vector holds exactly one 1, at the chosen file |
| Script.EpisodesOfSeason | main.py:35-39 | the selected season's episodes are that season's videos in order, empty for an absent season |
| Script.SeriesItemId | main.py:44 | the series id starts with the IMDb id |
| Script.SeriesItemIdSplitsBack | main.py:44 | the id splits on ":" into the IMDb id and two decimal texts that read back as the season and the episode |
| Script.SeriesItemIdAgrees | main.py:44 | the script's id equals the application's item id for the same season and episode in decimal |
| Script.Playback | main.py:54-89 | every run begins with adding the magnet link, paused and sequential, with no extra trackers |
| Script.PlaybackShape | main.py:54-89 | where the run stops: no metadata, no matching file, below 80 KiB, or after the launch, waiting for or reaching seeding |
| Script.RunPlayback | main.py:54-89 | the script's run with its polling loops is exactly `Playback` |
| Script.ScriptPlayerAfterGate | main.py:85-87 | a launch happens only after the first poll at or above 80 KiB (all earlier below), on the buffer path made from the first file with the hinted name |
| Script.NoMatchStopsEarly | main.py:71-82 | with no file of the hinted name the run stops right after adding the torrent |
| PyText.RemovePrefix | models.py:121 | `removeprefix` removes the prefix once when present and leaves the text alone otherwise |
| PyText.RemovePrefixOfConcat | models.py:121 | removing a prefix from prefix + rest gives rest |
| PyText.LStrip | streaming.py:128 | `lstrip(chars)` drops a leading run of characters from the set and stops at one outside it |
| PyText.LStripAfterRun | streaming.py:128 | the strip stops exactly where the run of set characters ends |
| PyText.Strip | streaming.py:32 | `strip()` is a window of the text with only whitespace before and after it, and it neither starts nor ends with whitespace |
| PyText.StripSpaceFree | streaming.py:32 | stripping whitespace-free text followed by whitespace gives the text |
| PyText.SplitWhitespace | streaming.py:46 | `split()` gives non-empty words without whitespace |
| PyText.SplitWhitespaceOfJoinLines | streaming.py:46 | `split()` of whitespace-free lines joined by "\n" gives the non-blank lines |
| PyText.SplitLines | streaming.py:33 | `splitlines()` gives lines without line breaks |
| PyText.SplitLinesOfJoinLines | streaming.py:33 | `splitlines()` of lines each ended by "\n" gives the lines back |
| PyText.Translate | streaming.py:33 | text-mode reading leaves no carriage return |
| PyText.TranslateNoReturn | streaming.py:33 | text without a carriage return reads as itself |
| PyText.ReadLineOfLine | streaming.py:32 | `readline()` of a first line ended by "\n" reads that line and its "\n" |
| PyText.Join | streaming.py:101-107 | `sep.join` of no parts is "", and otherwise starts with the first part |
| PyText.SplitOnOfJoin | streaming.py:101-107 | splitting a ":"-join of colon-free parts gives the parts back |
| PyText.PathSuffix | streaming.py:151 | `.suffix` is the tail of the name from a "." that is neither its first nor its last character, with no later "."; "" when there is no such dot |
| PyText.SuffixOfStemAndSuffix | streaming.py:151-153 | a dot-free stem followed by a path's suffix has that suffix |
| PyText.PyIndex | streaming.py:150 | list indexing is defined exactly on -n..n-1, a negative index counting from the end |
| PyText.DecimalString | main.py:44 | `f"{n}"` is non-empty and holds neither ":" nor "/" |
| PyText.ParseDecimalOfDecimalString | main.py:44 | `int()` of `f"{n}"` is n |

## Left out

- app.py, the Textual interface with its workers and concurrent requests, is not part of this model.
- HTTP clients and the JSON schema of their responses: a request is a function from URL to the parsed list, None when it raises. `GetMetadata` sees only the "videos" list of the metadata.
- libtorrent, mpv, `sleep` and `print`: the engine is what it reports, as sequences of polled readings. The player and the file system are the requests made of them. A run that runs out of readings is reported as still waiting.
- Streaming.GetMetadata: the source reads "videos" only for a series. For a movie, `fetch` stands for `meta.get("videos", [])`: a movie without a "videos" list is a successful fetch of the empty list, and the model does not require the key.
- `datetime.date.today()` is a parameter. The tracker-list request is one outcome per call.
- `get_session_handle`, `close_session`, the session state file and the DHT router list are opaque engine state.
- pydantic validation (URLs, file paths, dates, aliases, the discriminated union) is left out. So is the mismatch between the key `'seasons'` that the grouping validator fills and the field `numbered`: the model keeps the grouping function itself.
- `Seasons.__iter__` is iteration over `numbered`, which the model exposes as a field.
- A payload whose "season" is not a number, or a missing dictionary key outside the coordinate validator, raises in Python. The model's records are already typed.
- Models.ParseCoordinateFormatted: a value that is neither text nor a number fails with TypeError, because `str()` of other values is not modelled.
- Models.FilterVideosIntoNumberedAndSpecials: requires every season to be at least -1, because with -2 or below the padding loop does nothing and Python's negative indexing appends into a bucket from the end.
- TrackerCache.CacheFile: offsets count characters, not bytes. Non-UTF-8 files and the platform newline a text-mode write uses are not modelled (POSIX "\n" is assumed).
- PyText.PathSuffix: follows pathlib up to Python 3.13, where a name ending in "." has no suffix. Python 3.14 changed that case.
- main.py's prompts, its catalogue listing and its stream choice (lines 10-32 and 46-52) are terminal interaction. The model starts from the chosen hash and file-name hint.
- Streaming.StartDownload: the final `unlink` is recorded as a request. A `FileNotFoundError` it may raise when the player or something else removed the buffer is not modelled.
- Streaming.StartDownload: the bootstrap list is passed by value, so the fact that `.copy()` leaves the session's own list untouched holds by construction rather than being proved against aliasing.
- Streaming.Download and Streaming.StartDownload keep the tracker list as written, because they model the code. The evidently intended list is `Streaming.IntendedTorrentTrackers`, the subject of the corrected lemmas below.

## Findings

| source | as written | input that shows it | evidently intended | confidence | as-written member | corrected member |
|---|---|---|---|---|---|---|
| streaming.py:44-45 | `seek(0)` then `write` on an `r+` handle does not truncate, so a stale cache longer than the new list keeps its tail | cache "d0\nudp://aaaa\n", today "d1", fetched "u\n": the file becomes "d1\nu\np://aaaa\n" and later that day the list is ["u", "p://aaaa"] | the file is replaced by the date and the new list | not executed | TrackerCache.StaleTailExample | TrackerCache.IntendedSameDayAgrees |
| streaming.py:33, streaming.py:46 | a refresh returns `raw.split()` but a cache hit returns `splitlines()` of the stored text, so blank lines become empty trackers | no cache, today "d", fetched "a\n\nb\n": the refresh returns ["a", "b"], a call later that day ["a", "", "b"] | both calls return the same list | not executed | TrackerCache.BlankLineExample | TrackerCache.IntendedSameDayAgrees |
| streaming.py:129 | the second test is `if`, not `elif`, so a "tracker:" source is added twice, bare and with its prefix | sources ["tracker:udp://t.example:1337"] add "udp://t.example:1337" and "tracker:udp://t.example:1337" | a "tracker:" source is added once, without its prefix, as `Stream.normalize_sources` does | not executed | Streaming.TrackerAddedTwiceExample | Streaming.IntendedTrackerSourceOnce |
| streaming.py:128 | `lstrip("tracker:")` strips a character set, not a prefix | "tracker:example.com" becomes "xample.com" | exactly the prefix removed ("example.com") | not executed | Streaming.TrackerOverStrippedExample | Streaming.IntendedTrackersExample |
| models.py:46 | `('season', 'episode') in data` tests for one tuple key, which a JSON object never has, so no coordinate is ever set | {"season": 1, "episode": 2} passes without a "coordinate" | the coordinate is set when both keys are present | not executed | Models.EpisodePayloadGetsNoCoordinate | Models.ParseCoordinateByKeys, Models.ParseCoordinateFormatted |
| models.py:47 | `data['season'] + ':' + data['episode']` concatenates, but the catalogue's season and episode are numbers (the grouping at models.py:65 subtracts 0 from the same field), so even with the guard fixed it raises TypeError | {"season": 1, "episode": 2} raises TypeError | the coordinate is the formatted "1:2" | not executed | Models.NumericPayloadFailsByKeys | Models.ParseCoordinateFormatted, Models.NumericPayloadGetsCoordinate |
