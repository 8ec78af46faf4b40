// The daily cache of bootstrap trackers (streaming.py, get_bootstrap_trackers).
//
// The cache is one text file: its first line is the ISO date of the last
// successful refresh and the rest is the tracker list as last downloaded.
// The file is modelled by the class CacheFile (its raw characters, whether it
// exists, and the position of the open handle), the network by the class
// Fetcher, and the whole call by the function BootstrapStep, which the method
// GetBootstrapTrackers is proved to follow.
module TrackerCache {
  import opened Wrappers
  import opened PyText

  const TrackersListFetchUrl := "https://cdn.jsdelivr.net/gh/ngosang/trackerslist@master/trackers_best.txt"

  /** What the request for the tracker list ends in. */
  datatype Fetch =
    | Fetched(text: string)  // a success status and its body
    | HttpFailure            // raise_for_status raised an HTTPError
    | TransportFailure       // any other request error: it is not caught

  /** The raw characters after writing `text` at `offset` without truncating:
      whatever lay beyond the end of the write survives. */
  function Overwrite(disk: string, offset: nat, text: string): (r: string)
    requires offset <= |disk|
    ensures |r| == if offset + |text| < |disk| then |disk| else offset + |text|
    ensures r[..offset] == disk[..offset]
    ensures r[offset..offset + |text|] == text
    ensures offset + |text| < |disk| ==> r[offset + |text|..] == disk[offset + |text|..]
  {
    disk[..offset] + text + (if offset + |text| < |disk| then disk[offset + |text|..] else [])
  }

  /** Writing over a prefix: the text followed by the old characters beyond it. */
  lemma OverwriteFromStart(disk: string, text: string)
    ensures Overwrite(disk, 0, text) == text + (if |text| < |disk| then disk[|text|..] else [])
  {
  }

  /** The date on the first line (stripped) and the remaining lines, as a
      text-mode handle reads them with readline(), read() and splitlines(). */
  datatype CacheView = CacheView(date: string, trackers: seq<string>)

  function ReadCache(disk: string): (view: CacheView)
    ensures view.date != [] ==> !IsSpace(view.date[0]) && !IsSpace(view.date[|view.date| - 1])
    ensures forall k :: 0 <= k < |view.trackers| ==> NoLineBreak(view.trackers[k])
  {
    var (line, used) := PyText.ReadLine(disk);
    CacheView(Strip(line), SplitLines(Translate(disk[used..])))
  }

  /** One call of get_bootstrap_trackers on a cache file that is absent (None)
      or holds the given characters: what it returns (None: an exception
      escapes), what the file holds afterwards, and whether it made a request. */
  datatype CacheStep = CacheStep(returned: Option<seq<string>>, file: Option<string>, fetched: bool)

  function BootstrapStep(file: Option<string>, today: string, fetch: Fetch): (r: CacheStep)
    ensures r.file.Some?
    ensures r.returned.Some? && r.fetched && fetch.Fetched? ==> r.returned.value == SplitWhitespace(fetch.text)
    ensures r.fetched <==> file.None? || ReadCache(file.value).date != today
    ensures !r.fetched ==> r.file == file && r.returned == Some(ReadCache(file.value).trackers)
    ensures r.fetched && fetch.Fetched? && file.None? ==> r.file == Some(today + "\n" + fetch.text)
    ensures r.fetched && fetch.Fetched? && file.Some? ==> r.file == Some(Overwrite(file.value, 0, today + "\n" + fetch.text))
    ensures r.fetched && fetch.HttpFailure? ==>
      && r.returned == Some(if file.Some? then ReadCache(file.value).trackers else [])
      && r.file == (if file.Some? then file else Some(""))
    ensures r.fetched ==> (r.returned.None? <==> fetch.TransportFailure?)
    ensures r.fetched && fetch.TransportFailure? ==> r.file == (if file.Some? then file else Some(""))
  {
    match file
    case Some(disk) =>
      var view := ReadCache(disk);
      var cached := view.trackers;
      if view.date == today then CacheStep(Some(cached), file, false)
      else (
        match fetch
        case Fetched(raw) => CacheStep(Some(SplitWhitespace(raw)), Some(Overwrite(disk, 0, today + "\n" + raw)), true)
        case HttpFailure => CacheStep(Some(cached), file, true)
        case TransportFailure => CacheStep(None, file, true))
    case None =>
      match fetch
      case Fetched(raw) => CacheStep(Some(SplitWhitespace(raw)), Some(today + "\n" + raw), true)
      case HttpFailure => CacheStep(Some([]), Some(""), true)
      case TransportFailure => CacheStep(None, Some(""), true)
  }

  /** The cache file and the position of a handle open on it. */
  class CacheFile {
    var present: bool
    var disk: string
    var offset: nat

    ghost predicate Valid()
      reads this
    {
      offset <= |disk| && (!present ==> disk == [])
    }

    /** What the file system holds under the cache's path. */
    function Contents(): (c: Option<string>)
      reads this
      ensures c.Some? <==> present
    {
      if present then Some(disk) else None
    }

    constructor (contents: Option<string>)
      ensures Valid() && Contents() == contents && offset == 0
    {
      present := contents.Some?;
      disk := if contents.Some? then contents.value else [];
      offset := 0;
    }

    /** open(path, "r+"): false stands for FileNotFoundError. */
    method OpenForUpdate() returns (found: bool)
      requires Valid()
      modifies this
      ensures Valid() && found == present && offset == 0
      ensures present == old(present) && disk == old(disk)
    {
      found := present;
      offset := 0;
    }

    /** open(path, "w"): creates the file or empties it. */
    method OpenForWriting()
      modifies this
      ensures Valid() && present && disk == [] && offset == 0
    {
      present := true;
      disk := [];
      offset := 0;
    }

    /** readline() in text mode: any line terminator is read as "\n". */
    method ReadLine() returns (line: string)
      requires Valid() && present
      modifies this
      ensures Valid() && present == old(present) && disk == old(disk)
      ensures line == PyText.ReadLine(old(disk[offset..])).0
      ensures offset == old(offset) + PyText.ReadLine(old(disk[offset..])).1
    {
      var (l, used) := PyText.ReadLine(disk[offset..]);
      line := l;
      offset := offset + used;
    }

    /** read() in text mode: the rest of the file with newlines translated. */
    method Read() returns (rest: string)
      requires Valid() && present
      modifies this
      ensures Valid() && present == old(present) && disk == old(disk)
      ensures rest == Translate(old(disk[offset..])) && offset == |disk|
    {
      rest := Translate(disk[offset..]);
      offset := |disk|;
    }

    /** seek(0). */
    method SeekStart()
      requires Valid()
      modifies this
      ensures Valid() && present == old(present) && disk == old(disk) && offset == 0
    {
      offset := 0;
    }

    /** write(text): replaces characters from the position on, never truncates. */
    method Write(text: string)
      requires Valid() && present
      modifies this
      ensures Valid() && present
      ensures disk == Overwrite(old(disk), old(offset), text)
      ensures offset == old(offset) + |text|
    {
      disk := Overwrite(disk, offset, text);
      offset := offset + |text|;
    }
  }

  /** The network as seen by one call: the response any request receives and
      the log of requested URLs. */
  class Fetcher {
    const response: Fetch
    var requests: seq<string>

    constructor (response: Fetch)
      ensures this.response == response && requests == []
    {
      this.response := response;
      requests := [];
    }

    method Get(url: string) returns (f: Fetch)
      modifies this
      ensures f == response && requests == old(requests) + [url]
    {
      f := response;
      requests := requests + [url];
    }
  }

  /** get_bootstrap_trackers: None when a request error other than an HTTP
      status error escapes. */
  method GetBootstrapTrackers(cache: CacheFile, net: Fetcher, today: string) returns (trackers: Option<seq<string>>)
    requires cache.Valid()
    modifies cache, net
    ensures cache.Valid()
    ensures var step := BootstrapStep(old(cache.Contents()), today, net.response);
      trackers == step.returned && cache.Contents() == step.file &&
      net.requests == old(net.requests) + (if step.fetched then [TrackersListFetchUrl] else [])
  {
    var found := cache.OpenForUpdate();
    if found {
      assert cache.disk[0..] == cache.disk;
      var line := cache.ReadLine();
      var cacheDate := Strip(line);
      var rest := cache.Read();
      var cachedTrackers := SplitLines(rest);
      if cacheDate == today {
        return Some(cachedTrackers);
      }
      var response := net.Get(TrackersListFetchUrl);
      match response
      case Fetched(raw) =>
        cache.SeekStart();
        cache.Write(today + "\n" + raw);
        return Some(SplitWhitespace(raw));
      case HttpFailure =>
        return Some(cachedTrackers);
      case TransportFailure =>
        return None;
    } else {
      cache.OpenForWriting();
      var response := net.Get(TrackersListFetchUrl);
      match response
      case Fetched(raw) =>
        cache.Write(today + "\n" + raw);
        assert cache.disk == today + "\n" + raw;
        return Some(SplitWhitespace(raw));
      case HttpFailure =>
        return Some([]);
      case TransportFailure =>
        return None;
    }
  }

  /** A file that begins with `today` on its own line is read back with that date. */
  lemma {:induction false} DateLineReadsBack(today: string, rest: string)
    requires NoSpace(today)
    ensures ReadCache(today + "\n" + rest) == CacheView(today, SplitLines(Translate(rest)))
  {
    NoSpaceNoLineBreak(today);
    ReadLineOfLine(today, rest);
    StripSpaceFree(today, "\n");
    assert (today + "\n" + rest)[|today| + 1..] == rest;
  }

  /** A date line followed by whitespace-free lines, one per line, reads back as
      that date and exactly those lines. */
  lemma {:induction false} DatedListReadsBack(today: string, lines: seq<string>)
    requires NoSpace(today)
    requires forall k :: 0 <= k < |lines| ==> NoSpace(lines[k])
    ensures ReadCache(today + "\n" + JoinLines(lines)) == CacheView(today, lines)
  {
    var text := JoinLines(lines);
    DateLineReadsBack(today, text);
    JoinLinesNoReturn(lines);
    TranslateNoReturn(text);
    forall k | 0 <= k < |lines|
      ensures NoLineBreak(lines[k])
    {
      NoSpaceNoLineBreak(lines[k]);
    }
    SplitLinesOfJoinLines(lines);
  }

  /** The characters of `file` beyond the first `n`, which a write of length
      `n` from the start leaves in place. */
  function Leftover(file: Option<string>, n: nat): (tail: string)
    ensures file.Some? && n < |file.value| ==> file.value == file.value[..n] + tail
  {
    if file.Some? && n < |file.value| then file.value[n..] else []
  }

  /** A refresh writes the date line, then the downloaded text, then whatever
      of the old file lies beyond them. */
  lemma RefreshedFile(file: Option<string>, today: string, raw: string)
    requires file.None? || ReadCache(file.value).date != today
    ensures BootstrapStep(file, today, Fetched(raw)).file ==
      Some(today + "\n" + (raw + Leftover(file, |today| + 1 + |raw|)))
  {
    var text := today + "\n" + raw;
    var tail := Leftover(file, |text|);
    assert text + tail == today + "\n" + (raw + tail);
    if file.Some? {
      var disk := file.value;
      OverwriteFromStart(disk, text);
      assert BootstrapStep(file, today, Fetched(raw)).file == Some(Overwrite(disk, 0, text));
      assert Overwrite(disk, 0, text) == text + tail;
    } else {
      assert raw + tail == raw;
    }
  }

  /** A successful refresh dates the cache today, so a second call on the same
      day is a cache hit: one request per day at most. */
  lemma {:induction false} SameDayCallIsHit(file: Option<string>, today: string, fetch: Fetch, later: Fetch)
    requires NoSpace(today)
    ensures var first := BootstrapStep(file, today, fetch);
      fetch.Fetched? || !first.fetched ==> !BootstrapStep(first.file, today, later).fetched
  {
    var first := BootstrapStep(file, today, fetch);
    if fetch.Fetched? && first.fetched {
      RefreshedFile(file, today, fetch.text);
      DateLineReadsBack(today, fetch.text + Leftover(file, |today| + 1 + |fetch.text|));
    }
  }

  /** As written, a refresh that keeps the cache would re-read as the lines of
      the new text: from whitespace-free lines (some blank, as in the list
      served upstream) the refresh returns the non-blank ones, the same-day
      re-read returns all of them, blank entries included. */
  lemma {:induction false} SameDayRereadKeepsBlankLines(lines: seq<string>, today: string)
    requires NoSpace(today)
    requires forall k :: 0 <= k < |lines| ==> NoSpace(lines[k])
    ensures var first := BootstrapStep(None, today, Fetched(JoinLines(lines)));
      var second := BootstrapStep(first.file, today, TransportFailure);
      first.returned == Some(NonEmptyOnly(lines)) && !second.fetched && second.returned == Some(lines)
  {
    SplitWhitespaceOfJoinLines(lines);
    DatedListReadsBack(today, lines);
  }

  /** Concrete instance: a list with a blank line is handed out as two trackers
      on the refresh and as three entries, one empty, on the same day after. */
  lemma BlankLineExample()
    ensures var first := BootstrapStep(None, "d", Fetched("a\n\nb\n"));
      var second := BootstrapStep(first.file, "d", TransportFailure);
      first.returned == Some(["a", "b"]) && second.returned == Some(["a", "", "b"])
  {
    var lines := ["a", "", "b"];
    assert JoinLines(lines) == "a\n\nb\n" by {
      assert JoinLines(lines[2..]) == "b\n";
      assert JoinLines(lines[1..]) == "\nb\n";
    }
    assert NonEmptyOnly(lines) == ["a", "b"] by {
      assert NonEmptyOnly(lines[2..]) == ["b"];
      assert NonEmptyOnly(lines[1..]) == ["b"];
    }
    SameDayRereadKeepsBlankLines(lines, "d");
  }

  /** Concrete instance of the missing truncation: a stale cache longer than the
      fresh list keeps its tail, which the same-day re-read hands out as a
      tracker that the refresh never returned. */
  lemma StaleTailExample()
    ensures var first := BootstrapStep(Some("d0\nudp://aaaa\n"), "d1", Fetched("u\n"));
      var second := BootstrapStep(first.file, "d1", TransportFailure);
      first.returned == Some(["u"]) && first.file == Some("d1\nu\np://aaaa\n") &&
      !second.fetched && second.returned == Some(["u", "p://aaaa"])
  {
    StaleTailFirstFile();
    StaleTailFirstReturned();
    StaleTailReread();
  }

  lemma StaleTailDate()
    ensures ReadCache("d0\nudp://aaaa\n").date == "d0"
  {
    assert "d0\nudp://aaaa\n" == "d0" + "\n" + "udp://aaaa\n";
    DateLineReadsBack("d0", "udp://aaaa\n");
  }

  lemma StaleTailRefresh()
    ensures BootstrapStep(Some("d0\nudp://aaaa\n"), "d1", Fetched("u\n")).file ==
      Some("d1" + "\n" + ("u\n" + Leftover(Some("d0\nudp://aaaa\n"), 5)))
  {
    StaleTailDate();
    RefreshedFile(Some("d0\nudp://aaaa\n"), "d1", "u\n");
  }

  lemma StaleTailLeftover()
    ensures Leftover(Some("d0\nudp://aaaa\n"), 5) == "p://aaaa\n"
    ensures "d1" + "\n" + ("u\n" + "p://aaaa\n") == "d1\nu\np://aaaa\n"
  {
  }

  lemma StaleTailFirstFile()
    ensures BootstrapStep(Some("d0\nudp://aaaa\n"), "d1", Fetched("u\n")).file == Some("d1\nu\np://aaaa\n")
  {
    StaleTailRefresh();
    StaleTailLeftover();
  }

  lemma StaleTailFirstReturned()
    ensures BootstrapStep(Some("d0\nudp://aaaa\n"), "d1", Fetched("u\n")).returned == Some(["u"])
  {
    StaleTailDate();
    StaleTailWords();
  }

  lemma StaleTailWords()
    ensures SplitWhitespace("u\n") == ["u"]
  {
    assert JoinLines(["u"]) == "u\n";
    assert NonEmptyOnly(["u"]) == ["u"];
    SplitWhitespaceOfJoinLines(["u"]);
  }

  lemma StaleTailJoin()
    ensures JoinLines(["u", "p://aaaa"]) == "u\np://aaaa\n"
  {
    assert JoinLines(["u", "p://aaaa"][1..]) == "p://aaaa\n";
  }

  lemma StaleTailReread()
    ensures BootstrapStep(Some("d1\nu\np://aaaa\n"), "d1", TransportFailure) ==
      CacheStep(Some(["u", "p://aaaa"]), Some("d1\nu\np://aaaa\n"), false)
  {
    StaleTailRereadView();
  }

  lemma StaleTailRereadView()
    ensures ReadCache("d1\nu\np://aaaa\n") == CacheView("d1", ["u", "p://aaaa"])
  {
    StaleTailSpelled();
    StaleTailDatedList();
  }

  lemma StaleTailSpelled()
    ensures "d1\nu\np://aaaa\n" == "d1" + "\n" + JoinLines(["u", "p://aaaa"])
  {
    StaleTailJoin();
  }

  lemma StaleTailDatedList()
    ensures ReadCache("d1" + "\n" + JoinLines(["u", "p://aaaa"])) == CacheView("d1", ["u", "p://aaaa"])
  {
    assert NoSpace("d1") && NoSpace("u") && NoSpace("p://aaaa");
    DatedListReadsBack("d1", ["u", "p://aaaa"]);
  }

  /** The cache as evidently intended: a refresh replaces the whole file by the
      date line and the downloaded trackers, one per line. */
  function BootstrapStepIntended(file: Option<string>, today: string, fetch: Fetch): (r: CacheStep)
    ensures r.file.Some?
    ensures !r.fetched ==> r.file == file && file.Some? && ReadCache(file.value).date == today
    ensures !r.fetched ==> r.returned == Some(ReadCache(file.value).trackers)
    ensures r.fetched <==> file.None? || ReadCache(file.value).date != today
    ensures r.fetched && fetch.Fetched? ==>
      && r.returned == Some(SplitWhitespace(fetch.text))
      && r.file == Some(today + "\n" + JoinLines(SplitWhitespace(fetch.text)))
    ensures r.fetched && fetch.HttpFailure? ==>
      && r.returned == Some(if file.Some? then ReadCache(file.value).trackers else [])
      && r.file == (if file.Some? then file else Some(""))
    ensures r.fetched ==> (r.returned.None? <==> fetch.TransportFailure?)
    ensures r.fetched && fetch.TransportFailure? ==> r.file == (if file.Some? then file else Some(""))
  {
    match file
    case Some(disk) =>
      var view := ReadCache(disk);
      var cached := view.trackers;
      if view.date == today then CacheStep(Some(cached), file, false)
      else (
        match fetch
        case Fetched(raw) =>
          var trackers := SplitWhitespace(raw);
          CacheStep(Some(trackers), Some(today + "\n" + JoinLines(trackers)), true)
        case HttpFailure => CacheStep(Some(cached), file, true)
        case TransportFailure => CacheStep(None, file, true))
    case None =>
      match fetch
      case Fetched(raw) =>
        var trackers := SplitWhitespace(raw);
        CacheStep(Some(trackers), Some(today + "\n" + JoinLines(trackers)), true)
      case HttpFailure => CacheStep(Some([]), Some(""), true)
      case TransportFailure => CacheStep(None, Some(""), true)
  }

  /** With the intended cache, a call later on the same day makes no request and
      returns exactly what the earlier call returned. */
  lemma {:induction false} IntendedSameDayAgrees(file: Option<string>, today: string, fetch: Fetch, later: Fetch)
    requires NoSpace(today)
    ensures var first := BootstrapStepIntended(file, today, fetch);
      var second := BootstrapStepIntended(first.file, today, later);
      fetch.Fetched? || !first.fetched ==> !second.fetched && second.returned == first.returned
  {
    var first := BootstrapStepIntended(file, today, fetch);
    if fetch.Fetched? && first.fetched {
      DatedListReadsBack(today, SplitWhitespace(fetch.text));
    }
  }
}
