/** Normalisation of the catalogue payloads: the coordinate of an episode, the grouping
    of a series' videos into numbered seasons and specials, and a stream's source list
    and magnet link. */
module Models {
  import opened Wrappers
  import opened Subsequences
  import opened PyText
  import opened Videos

  // ---------------------------------------------------------------------------
  // Episode coordinate
  // ---------------------------------------------------------------------------

  /** A key of a raw payload dict. JSON only produces string keys; a pair of strings is
      a tuple key. */
  datatype Key = Name(name: string) | Pair(first: string, second: string)

  /** A payload value: text, a number, or anything else. */
  datatype Value = Text(text: string) | Number(number: int) | Other

  /** The Python exceptions payload code can raise. */
  datatype PyError = KeyError | TypeError

  /** The key the episode validator tests for: the tuple `('season', 'episode')`. */
  const CoordinateGuard: Key := Pair("season", "episode")

  predicate IsTextAt(data: map<Key, Value>, key: Key) {
    key in data && data[key].Text?
  }

  /** The episode payload after the coordinate validator. When the guard key is present,
      `data['season'] + ':' + data['episode']` is evaluated left to right: a missing key
      raises KeyError and a non-text operand raises TypeError. */
  function ParseCoordinate(data: map<Key, Value>): (r: Result<map<Key, Value>, PyError>)
    ensures CoordinateGuard !in data ==> r == Success(data)
    ensures CoordinateGuard in data ==>
      (r.Success? <==> IsTextAt(data, Name("season")) && IsTextAt(data, Name("episode")))
    ensures CoordinateGuard in data && r.Success? ==>
      && r.value.Keys == data.Keys + {Name("coordinate")}
      && r.value[Name("coordinate")]
         == Text(data[Name("season")].text + ":" + data[Name("episode")].text)
      && forall k :: k in data && k != Name("coordinate") ==> r.value[k] == data[k]
    ensures CoordinateGuard in data && r.Failure? ==>
      r.error == (if Name("season") !in data || (data[Name("season")].Text? && Name("episode") !in data)
                  then KeyError else TypeError)
  {
    if CoordinateGuard !in data then Success(data)
    else if Name("season") !in data then Failure(KeyError)
    else if !data[Name("season")].Text? then Failure(TypeError)
    else if Name("episode") !in data then Failure(KeyError)
    else if !data[Name("episode")].Text? then Failure(TypeError)
    else
      var season, episode := data[Name("season")].text, data[Name("episode")].text;
      var coordinate := Join([season, episode], ":");
      JoinTwo(season, episode, ":");
      Success(data[Name("coordinate") := Text(coordinate)])
  }

  /** A coordinate splits back into the season and the episode it was made from. */
  lemma CoordinateSplitsBack(data: map<Key, Value>)
    requires CoordinateGuard in data
    requires IsTextAt(data, Name("season")) && IsTextAt(data, Name("episode"))
    requires ':' !in data[Name("season")].text && ':' !in data[Name("episode")].text
    ensures ParseCoordinate(data).Success?
    ensures SplitOn(ParseCoordinate(data).value[Name("coordinate")].text, ':')
         == [data[Name("season")].text, data[Name("episode")].text]
  {
    var parts := [data[Name("season")].text, data[Name("episode")].text];
    JoinTwo(parts[0], parts[1], ":");
    SplitOnOfJoin(parts, ':');
  }

  /** The guard asks for a tuple key, which a JSON object never has: an episode payload
      that does carry "season" and "episode", as the numbers the catalogue sends or as
      text, is passed on without a coordinate. */
  lemma EpisodePayloadGetsNoCoordinate()
    ensures var data := map[Name("season") := Number(1), Name("episode") := Number(2)];
      ParseCoordinate(data) == Success(data) && Name("coordinate") !in ParseCoordinate(data).value
    ensures var data := map[Name("season") := Text("1"), Name("episode") := Text("2")];
      ParseCoordinate(data) == Success(data) && Name("coordinate") !in ParseCoordinate(data).value
  {
  }

  /** The coordinate validator with the guard it evidently means: both keys present.
      The concatenation then fails as before on a non-text operand. */
  function ParseCoordinateByKeys(data: map<Key, Value>): (r: Result<map<Key, Value>, PyError>)
    ensures Name("season") !in data || Name("episode") !in data ==> r == Success(data)
    ensures Name("season") in data && Name("episode") in data ==>
      (r.Success? <==> IsTextAt(data, Name("season")) && IsTextAt(data, Name("episode")))
    ensures r.Failure? ==> r.error == TypeError
    ensures r.Success? && Name("season") in data && Name("episode") in data ==>
      && r.value.Keys == data.Keys + {Name("coordinate")}
      && r.value[Name("coordinate")]
         == Text(data[Name("season")].text + ":" + data[Name("episode")].text)
      && forall k :: k in data && k != Name("coordinate") ==> r.value[k] == data[k]
  {
    if Name("season") !in data || Name("episode") !in data then Success(data)
    else if !data[Name("season")].Text? || !data[Name("episode")].Text? then Failure(TypeError)
    else
      var season, episode := data[Name("season")].text, data[Name("episode")].text;
      var coordinate := Join([season, episode], ":");
      JoinTwo(season, episode, ":");
      Success(data[Name("coordinate") := Text(coordinate)])
  }

  /** Corrected, a payload that carries "season" and "episode" gets its coordinate and
      no other key. */
  lemma EpisodePayloadGetsCoordinate()
    ensures var data := map[Name("season") := Text("1"), Name("episode") := Text("2")];
      ParseCoordinateByKeys(data) == Success(data[Name("coordinate") := Text("1:2")])
  {
    var data := map[Name("season") := Text("1"), Name("episode") := Text("2")];
    JoinTwo("1", "2", ":");
    assert "1" + ":" + "2" == "1:2";
    assert ParseCoordinateByKeys(data) == Success(data[Name("coordinate") := Text(Join(["1", "2"], ":"))]);
  }

  /** With the guard fixed, `data['season'] + ':'` still raises TypeError on the numbers
      the catalogue sends for "season" and "episode" (the grouping subtracts 0 from the
      same field, so it is a number there). */
  lemma NumericPayloadFailsByKeys()
    ensures var data := map[Name("season") := Number(1), Name("episode") := Number(2)];
      ParseCoordinateByKeys(data) == Failure(TypeError)
  {
  }

  /** `str(value)` for the values the model distinguishes: text is itself, an integer its
      decimal text; `str` of any other value is not modelled. */
  function StrOf(v: Value): Option<string> {
    match v
    case Text(t) => Some(t)
    case Number(n) => Some(DecimalString(n))
    case Other => None
  }

  /** The coordinate validator as evidently intended: when both keys are present the
      coordinate is `f"{season}:{episode}"`, for text and numbers alike. */
  function ParseCoordinateFormatted(data: map<Key, Value>): (r: Result<map<Key, Value>, PyError>)
    ensures Name("season") !in data || Name("episode") !in data ==> r == Success(data)
    ensures Name("season") in data && Name("episode") in data ==>
      (r.Success? <==> !data[Name("season")].Other? && !data[Name("episode")].Other?)
    ensures r.Failure? ==> r.error == TypeError
    ensures r.Success? && Name("season") in data && Name("episode") in data ==>
      && r.value.Keys == data.Keys + {Name("coordinate")}
      && r.value[Name("coordinate")].Text?
      && (data[Name("season")].Text? ==>
            StartsWith(r.value[Name("coordinate")].text, data[Name("season")].text + ":"))
      && forall k :: k in data && k != Name("coordinate") ==> r.value[k] == data[k]
  {
    if Name("season") !in data || Name("episode") !in data then Success(data)
    else if StrOf(data[Name("season")]).None? || StrOf(data[Name("episode")]).None? then Failure(TypeError)
    else
      var season, episode := StrOf(data[Name("season")]).value, StrOf(data[Name("episode")]).value;
      var coordinate := Join([season, episode], ":");
      JoinTwo(season, episode, ":");
      assert (season + ":" + episode)[..|season + ":"|] == season + ":";
      Success(data[Name("coordinate") := Text(coordinate)])
  }

  /** Corrected, a numeric season and episode give a coordinate that splits on ":" into
      two decimal texts, which `int()` reads back as the season and the episode. */
  lemma NumericCoordinateReadsBack(data: map<Key, Value>)
    requires Name("season") in data && data[Name("season")].Number?
    requires Name("episode") in data && data[Name("episode")].Number?
    ensures ParseCoordinateFormatted(data).Success?
    ensures var parts := SplitOn(ParseCoordinateFormatted(data).value[Name("coordinate")].text, ':');
      && |parts| == 2 && DecimalText(parts[0]) && DecimalText(parts[1])
      && ParseDecimal(parts[0]) == data[Name("season")].number
      && ParseDecimal(parts[1]) == data[Name("episode")].number
  {
    var s, e := data[Name("season")].number, data[Name("episode")].number;
    var parts := [DecimalString(s), DecimalString(e)];
    SplitOnOfJoin(parts, ':');
    ParseDecimalOfDecimalString(s);
    ParseDecimalOfDecimalString(e);
  }

  /** Corrected, the catalogue's numeric payload gets its coordinate and no other key. */
  lemma NumericPayloadGetsCoordinate()
    ensures var data := map[Name("season") := Number(1), Name("episode") := Number(2)];
      ParseCoordinateFormatted(data) == Success(data[Name("coordinate") := Text("1:2")])
  {
    var data := map[Name("season") := Number(1), Name("episode") := Number(2)];
    assert DecimalString(1) == "1" && DecimalString(2) == "2";
    JoinTwo("1", "2", ":");
    assert "1" + ":" + "2" == "1:2";
    assert ParseCoordinateFormatted(data) == Success(data[Name("coordinate") := Text(Join(["1", "2"], ":"))]);
  }

  // ---------------------------------------------------------------------------
  // Seasons
  // ---------------------------------------------------------------------------

  /** Numbered seasons (index = season number) and the specials of a series. */
  datatype Seasons = Seasons(specials: seq<Video>, numbered: seq<seq<Video>>, hasSpecials: bool)
  {
    /** `len(seasons)`: the number of numbered seasons, so that `seasons[i]` is defined
        exactly for `-len <= i < len`. */
    function Length(): (n: nat)
      ensures forall i :: 0 <= i ==> (Get(i).Some? <==> i < n)
      ensures forall i :: i < 0 ==> (Get(i).Some? <==> -i <= n)
    {
      |numbered|
    }

    /** `seasons[number]`: Python list indexing of the numbered seasons, negative numbers
        counting from the end; None where Python raises IndexError. */
    function Get(number: int): (r: Option<seq<Video>>)
      ensures r.Some? <==> -|numbered| <= number < |numbered|
      ensures 0 <= number < |numbered| ==> r == Some(numbered[number])
      ensures -|numbered| <= number < 0 ==> r == Some(numbered[|numbered| + number])
    {
      var n := if number < 0 then number + |numbered| else number;
      if 0 <= n < |numbered| then Some(numbered[n]) else None
    }
  }

  /** The grouping's precondition: -1 marks specials, other seasons are never negative. */
  predicate ValidSeasons(videos: seq<Video>) {
    forall k :: 0 <= k < |videos| ==> videos[k].season >= -1
  }

  /** One more than the highest season number, or 0 when there is none. */
  function NumberedCount(videos: seq<Video>): (n: nat)
    ensures forall k :: 0 <= k < |videos| ==> videos[k].season < n
    ensures n > 0 ==> exists k :: 0 <= k < |videos| && videos[k].season == n - 1
  {
    if videos == [] then 0
    else
      var m := |videos| - 1;
      var prev := NumberedCount(videos[..m]);
      assert forall k :: 0 <= k < m ==> videos[..m][k] == videos[k];
      var c := videos[m].season + 1;
      if c > prev then c else prev
  }

  predicate HasSpecial(videos: seq<Video>) {
    exists k :: 0 <= k < |videos| && videos[k].season == -1
  }

  /** What the grouping produces, stated directly: the specials are the season -1 videos,
      there is one bucket per season number below the highest one plus one, and bucket
      `s` holds the season `s` videos. */
  function Grouped(videos: seq<Video>): Seasons {
    var n := NumberedCount(videos);
    Seasons(OfSeason(videos, -1),
            seq(n, s requires 0 <= s < n => OfSeason(videos, s)),
            HasSpecial(videos))
  }

  lemma {:induction false} OfSeasonBeyond(videos: seq<Video>, s: int)
    requires s >= NumberedCount(videos)
    ensures OfSeason(videos, s) == []
  {
    NoneSelected(videos, s);
  }

  lemma {:induction false} HasSpecialSnoc(videos: seq<Video>, v: Video)
    ensures HasSpecial(videos + [v]) == (HasSpecial(videos) || v.season == -1)
  {
    var vs := videos + [v];
    assert forall k :: 0 <= k < |videos| ==> vs[k] == videos[k];
    assert vs[|videos|] == v;
  }

  lemma {:induction false} NumberedCountSnoc(videos: seq<Video>, v: Video)
    ensures NumberedCount(videos + [v])
         == if v.season + 1 > NumberedCount(videos) then v.season + 1 else NumberedCount(videos)
  {
    assert (videos + [v])[..|videos|] == videos;
  }

  /** `filter_videos_into_numbered_and_specials`: one pass over the videos that appends
      each to the specials or to the bucket of its season, first padding the bucket list
      with empty buckets up to that season. */
  method FilterVideosIntoNumberedAndSpecials(videos: seq<Video>) returns (r: Seasons)
    requires ValidSeasons(videos)
    ensures r == Grouped(videos)
  {
    var numbered: seq<seq<Video>> := [];
    var specials: seq<Video> := [];
    var hasSpecials := false;
    for i := 0 to |videos|
      invariant BucketsOf(numbered, videos[..i])
      invariant specials == OfSeason(videos[..i], -1)
      invariant hasSpecials == HasSpecial(videos[..i])
    {
      var video := videos[i];
      var season := video.season - 0;
      ghost var prefix := videos[..i];
      assert videos[..i + 1] == prefix + [video];
      NumberedCountSnoc(prefix, video);
      HasSpecialSnoc(prefix, video);
      OfSeasonSnoc(prefix, video, -1);
      if season == -1 {
        specials := specials + [video];
        hasSpecials := true;
        SpecialKeepsBuckets(numbered, prefix, video);
      } else {
        while |numbered| < season + 1
          invariant NumberedCount(prefix) <= |numbered| <= NumberedCount(prefix + [video])
          invariant forall s :: 0 <= s < |numbered| ==> numbered[s] == OfSeason(prefix, s)
        {
          PadBucket(numbered, prefix);
          numbered := numbered + [[]];
        }
        AppendToBucket(numbered, prefix, video);
        numbered := numbered[season := numbered[season] + [video]];
      }
    }
    assert videos[..|videos|] == videos;
    BucketsOfGrouped(numbered, videos);
    r := Seasons(specials, numbered, hasSpecials);
  }

  /** `numbered` holds, at each index `s`, exactly the season `s` videos of `videos`, and
      has one bucket per season up to the highest. */
  predicate BucketsOf(numbered: seq<seq<Video>>, videos: seq<Video>) {
    && |numbered| == NumberedCount(videos)
    && forall s :: 0 <= s < |numbered| ==> numbered[s] == OfSeason(videos, s)
  }

  lemma {:induction false} SpecialKeepsBuckets(numbered: seq<seq<Video>>, videos: seq<Video>, v: Video)
    requires BucketsOf(numbered, videos) && v.season == -1
    ensures BucketsOf(numbered, videos + [v])
  {
    SnocFacts(videos, v);
  }

  lemma {:induction false} PadBucket(numbered: seq<seq<Video>>, videos: seq<Video>)
    requires |numbered| >= NumberedCount(videos)
    requires forall s :: 0 <= s < |numbered| ==> numbered[s] == OfSeason(videos, s)
    ensures forall s :: 0 <= s < |numbered| + 1 ==> (numbered + [[]])[s] == OfSeason(videos, s)
  {
    OfSeasonBeyond(videos, |numbered|);
    var padded := numbered + [[]];
    forall s | 0 <= s < |padded| ensures padded[s] == OfSeason(videos, s) {
      if s < |numbered| {
        assert padded[s] == numbered[s];
      }
    }
  }

  lemma {:induction false} AppendToBucket(numbered: seq<seq<Video>>, videos: seq<Video>, v: Video)
    requires v.season >= 0 && |numbered| == NumberedCount(videos + [v])
    requires forall s :: 0 <= s < |numbered| ==> numbered[s] == OfSeason(videos, s)
    ensures v.season < |numbered|
    ensures BucketsOf(numbered[v.season := numbered[v.season] + [v]], videos + [v])
  {
    NumberedCountSnoc(videos, v);
    var updated := numbered[v.season := numbered[v.season] + [v]];
    forall s | 0 <= s < |updated|
      ensures updated[s] == OfSeason(videos + [v], s)
    {
      OfSeasonSnoc(videos, v, s);
    }
  }

  lemma {:induction false} BucketsOfGrouped(numbered: seq<seq<Video>>, videos: seq<Video>)
    requires BucketsOf(numbered, videos)
    ensures numbered == Grouped(videos).numbered
  {
  }

  /** What grouping one more video changes in the reference definition. */
  lemma {:induction false} SnocFacts(videos: seq<Video>, v: Video)
    ensures NumberedCount(videos + [v])
         == if v.season + 1 > NumberedCount(videos) then v.season + 1 else NumberedCount(videos)
    ensures forall s :: OfSeason(videos + [v], s) == OfSeason(videos, s) + (if v.season == s then [v] else [])
    ensures HasSpecial(videos + [v]) == (HasSpecial(videos) || v.season == -1)
  {
    NumberedCountSnoc(videos, v);
    forall s ensures OfSeason(videos + [v], s) == OfSeason(videos, s) + (if v.season == s then [v] else []) {
      OfSeasonSnoc(videos, v, s);
    }
    var vs := videos + [v];
    assert forall k :: 0 <= k < |videos| ==> vs[k] == videos[k];
    assert vs[|videos|] == v;
  }

  /** Where each video ends up: a season -1 video among the specials (and the specials
      flag set), any other inside the bucket of its season, which therefore exists. */
  lemma {:induction false} GroupedPlacement(videos: seq<Video>, k: nat)
    requires ValidSeasons(videos) && k < |videos|
    ensures var g := Grouped(videos); var v := videos[k];
      && (v.season == -1 ==> v in g.specials && g.hasSpecials)
      && (v.season >= 0 ==> v.season < g.Length() && v in g.numbered[v.season])
  {
    OfSeasonContains(videos, k);
  }

  /** Grouping one more special appends it to the specials and sets the flag; the
      buckets are unchanged. */
  lemma {:induction false} GroupedSnocSpecial(videos: seq<Video>, v: Video)
    requires v.season == -1
    ensures Grouped(videos + [v]) == Seasons(Grouped(videos).specials + [v], Grouped(videos).numbered, true)
  {
    SnocFacts(videos, v);
    var before, after := Grouped(videos), Grouped(videos + [v]);
    assert |after.numbered| == |before.numbered|;
    forall s | 0 <= s < |after.numbered| ensures after.numbered[s] == before.numbered[s] {
      assert after.numbered[s] == OfSeason(videos + [v], s);
    }
    assert after.numbered == before.numbered;
  }

  /** Grouping one more video of season `s >= 0` appends it at the end of bucket `s`;
      the bucket list grows to at least `s + 1` buckets, with empty ones, and every other
      bucket and the specials are unchanged. */
  lemma {:induction false} GroupedSnocNumbered(videos: seq<Video>, v: Video)
    requires v.season >= 0
    ensures var before := Grouped(videos); var after := Grouped(videos + [v]);
      && after.specials == before.specials
      && after.hasSpecials == before.hasSpecials
      && after.Length() == (if v.season + 1 > before.Length() then v.season + 1 else before.Length())
      && after.numbered[v.season]
         == (if v.season < before.Length() then before.numbered[v.season] else []) + [v]
      && (forall s :: 0 <= s < after.Length() && s != v.season ==>
            after.numbered[s] == (if s < before.Length() then before.numbered[s] else []))
  {
    var a, b := Grouped(videos).numbered, Grouped(videos + [v]).numbered;
    GroupedBucketsSnoc(videos, v);
    HasSpecialSnoc(videos, v);
    OfSeasonSnoc(videos, v, -1);
    BucketsSnocAt(a, b, v);
  }

  /** `b` is the bucket list `a` after one more video `v` of a numbered season: padded
      with empty buckets up to that season, with `v` appended to its bucket. */
  predicate BucketsSnoc(a: seq<seq<Video>>, b: seq<seq<Video>>, v: Video) {
    && |b| == (if v.season + 1 > |a| then v.season + 1 else |a|)
    && forall s :: 0 <= s < |b| ==> b[s] == (if s < |a| then a[s] else []) + (if v.season == s then [v] else [])
  }

  lemma {:induction false} GroupedBucketsSnoc(videos: seq<Video>, v: Video)
    requires v.season >= 0
    ensures BucketsSnoc(Grouped(videos).numbered, Grouped(videos + [v]).numbered, v)
  {
    var a, b := Grouped(videos).numbered, Grouped(videos + [v]).numbered;
    NumberedCountSnoc(videos, v);
    forall s | 0 <= s < |b|
      ensures b[s] == (if s < |a| then a[s] else []) + (if v.season == s then [v] else [])
    {
      GroupedBucketSnoc(videos, v, s);
    }
  }

  lemma {:induction false} GroupedBucketSnoc(videos: seq<Video>, v: Video, s: nat)
    ensures var a := Grouped(videos).numbered;
      OfSeason(videos + [v], s) == (if s < |a| then a[s] else []) + (if v.season == s then [v] else [])
  {
    OfSeasonSnoc(videos, v, s);
    if s >= NumberedCount(videos) {
      OfSeasonBeyond(videos, s);
    }
  }

  lemma {:induction false} BucketsSnocAt(a: seq<seq<Video>>, b: seq<seq<Video>>, v: Video)
    requires v.season >= 0 && BucketsSnoc(a, b, v)
    ensures b[v.season] == (if v.season < |a| then a[v.season] else []) + [v]
    ensures forall s :: 0 <= s < |b| && s != v.season ==> b[s] == (if s < |a| then a[s] else [])
  {
  }

  /** The total number of videos in a list of buckets. */
  function TotalLength(buckets: seq<seq<Video>>): nat {
    if buckets == [] then 0 else TotalLength(buckets[..|buckets| - 1]) + |buckets[|buckets| - 1]|
  }

  lemma {:induction false} TotalLengthPad(a: seq<seq<Video>>, b: seq<seq<Video>>)
    requires |a| <= |b|
    requires forall s :: 0 <= s < |a| ==> b[s] == a[s]
    requires forall s :: |a| <= s < |b| ==> b[s] == []
    ensures TotalLength(b) == TotalLength(a)
    decreases |b|
  {
    if |b| > |a| {
      TotalLengthPad(a, b[..|b| - 1]);
    } else {
      assert a == b;
    }
  }

  lemma {:induction false} TotalLengthBump(a: seq<seq<Video>>, b: seq<seq<Video>>, j: nat)
    requires |a| == |b| && j < |a|
    requires forall s :: 0 <= s < |a| && s != j ==> b[s] == a[s]
    requires |b[j]| == |a[j]| + 1
    ensures TotalLength(b) == TotalLength(a) + 1
  {
    var n := |a| - 1;
    if j < n {
      TotalLengthBump(a[..n], b[..n], j);
    } else {
      assert a[..n] == b[..n];
    }
  }

  /** Grouping loses and duplicates nothing: the bucket sizes and the number of specials
      add up to the number of videos. */
  lemma {:induction false} GroupedConserves(videos: seq<Video>)
    requires ValidSeasons(videos)
    ensures |Grouped(videos).specials| + TotalLength(Grouped(videos).numbered) == |videos|
  {
    if videos != [] {
      var n := |videos| - 1;
      var prefix, v := videos[..n], videos[n];
      assert videos == prefix + [v];
      GroupedConserves(prefix);
      var before, after := Grouped(prefix), Grouped(videos);
      if v.season == -1 {
        GroupedSnocSpecial(prefix, v);
      } else {
        NumberedSnocCounts(prefix, v);
      }
    }
  }

  /** A numbered video adds one to the bucket total and leaves the specials alone. */
  lemma {:induction false} NumberedSnocCounts(videos: seq<Video>, v: Video)
    requires v.season >= 0
    ensures Grouped(videos + [v]).specials == Grouped(videos).specials
    ensures TotalLength(Grouped(videos + [v]).numbered) == TotalLength(Grouped(videos).numbered) + 1
  {
    GroupedBucketsSnoc(videos, v);
    OfSeasonSnoc(videos, v, -1);
    BucketsSnocTotal(Grouped(videos).numbered, Grouped(videos + [v]).numbered, v);
  }

  lemma {:induction false} BucketsSnocTotal(a: seq<seq<Video>>, b: seq<seq<Video>>, v: Video)
    requires v.season >= 0 && BucketsSnoc(a, b, v)
    ensures TotalLength(b) == TotalLength(a) + 1
  {
    var padded := seq(|b|, s requires 0 <= s < |b| => if s < |a| then a[s] else []);
    TotalLengthPad(a, padded);
    TotalLengthBump(padded, b, v.season);
  }

  /** Within each bucket, and among the specials, videos keep their input order: each is
      the selection from the input of the videos of that season. */
  lemma {:induction false} GroupedKeepsOrder(videos: seq<Video>, s: int)
    requires -1 <= s < Grouped(videos).Length()
    ensures var bucket := if s == -1 then Grouped(videos).specials else Grouped(videos).numbered[s];
      bucket == Select(videos, seq(|videos|, k requires 0 <= k < |videos| => videos[k].season == s))
  {
    OfSeasonSelects(videos, s);
  }

  /** The bucket list is as long as the highest season number plus one; a season number
      below that which no video has gets an empty bucket. */
  lemma {:induction false} GroupedFillsGaps(videos: seq<Video>, s: int)
    requires 0 <= s < Grouped(videos).Length()
    requires s !in SeasonKeys(videos)
    ensures Grouped(videos).numbered[s] == []
    ensures exists k :: 0 <= k < |videos| && videos[k].season == Grouped(videos).Length() - 1
  {
    NoneSelected(videos, s);
  }

  /** Seasons -1, 0, 1 and 3 give the specials, four buckets, and an empty bucket 2. */
  lemma GroupedExample(a: Video, b: Video, c: Video, d: Video)
    requires a.season == -1 && b.season == 0 && c.season == 1 && d.season == 3
    ensures var g := Grouped([a, b, c, d]);
      g.specials == [a] && g.hasSpecials && g.numbered == [[b], [c], [], [d]]
  {
    ExampleUpToC(a, b, c);
    assert [a, b, c] + [d] == [a, b, c, d];
    HasSpecialSnoc([a, b, c], d);
    OfSeasonSnoc([a, b, c], d, -1);
    GroupedBucketsSnoc([a, b, c], d);
    ExampleLastBucket(b, c, d, Grouped([a, b, c] + [d]).numbered);
  }

  lemma {:induction false} ExampleLastBucket(b: Video, c: Video, d: Video, after: seq<seq<Video>>)
    requires d.season == 3 && BucketsSnoc([[b], [c]], after, d)
    ensures after == [[b], [c], [], [d]]
  {
    assert after[0] == [b] && after[1] == [c] && after[2] == [] && after[3] == [d];
  }

  lemma ExampleUpToB(a: Video, b: Video)
    requires a.season == -1 && b.season == 0
    ensures Grouped([a, b]) == Seasons([a], [[b]], true)
  {
    assert [] + [a] == [a] && [a] + [b] == [a, b];
    var g0 := Grouped([]);
    assert g0.numbered == [] && g0.specials == [] && !g0.hasSpecials;
    GroupedSnocSpecial([], a);
    GroupedSnocNumbered([a], b);
    var g := Grouped([a] + [b]);
    assert |g.numbered| == 1 && g.numbered[0] == [b];
    assert g.numbered == [[b]];
  }

  lemma ExampleUpToC(a: Video, b: Video, c: Video)
    requires a.season == -1 && b.season == 0 && c.season == 1
    ensures Grouped([a, b, c]) == Seasons([a], [[b], [c]], true)
  {
    ExampleUpToB(a, b);
    assert [a, b] + [c] == [a, b, c];
    GroupedSnocNumbered([a, b], c);
    var g := Grouped([a, b] + [c]);
    assert |g.numbered| == 2 && g.numbered[0] == [b] && g.numbered[1] == [c];
    assert g.numbered == [[b], [c]];
  }

  /** `len(seasons)` and `seasons[n]` of a grouping are the bucket count and bucket `n`;
      one past the last bucket is an IndexError. */
  lemma {:induction false} GroupedAccessors(videos: seq<Video>, s: nat)
    ensures Grouped(videos).Length() == NumberedCount(videos)
    ensures s < NumberedCount(videos) ==> Grouped(videos).Get(s) == Some(OfSeason(videos, s))
    ensures Grouped(videos).Get(NumberedCount(videos)).None?
  {
  }

  // ---------------------------------------------------------------------------
  // Streams
  // ---------------------------------------------------------------------------

  const MagnetPrefix := "magnet:?xt=urn:btih:"

  /** The magnet link of a BitTorrent info hash: removing the magnet prefix gives the
      info hash back. */
  function MagnetLink(infoHash: string): (link: string)
    ensures StartsWith(link, MagnetPrefix) && RemovePrefix(link, MagnetPrefix) == infoHash
  {
    RemovePrefixOfConcat(MagnetPrefix, infoHash);
    MagnetPrefix + infoHash
  }

  const TrackerPrefix := "tracker:"
  const DhtPrefix := "dht:"

  /** No source has both prefixes. */
  lemma PrefixesExclusive(x: string)
    ensures !(StartsWith(x, TrackerPrefix) && StartsWith(x, DhtPrefix))
  {
    if StartsWith(x, DhtPrefix) {
      assert x[0] == DhtPrefix[0];
    }
  }

  /** What one source contributes to the normalised list. */
  function NormalizedSource(source: string): seq<string> {
    if StartsWith(source, TrackerPrefix) then [RemovePrefix(source, TrackerPrefix)]
    else if !StartsWith(source, DhtPrefix) then [source]
    else []
  }

  /** The normalised source list, built from the front as the validator builds it. */
  function NormalizedSources(sources: seq<string>): seq<string> {
    if sources == [] then []
    else NormalizedSources(sources[..|sources| - 1]) + NormalizedSource(sources[|sources| - 1])
  }

  /** `Stream.normalize_sources`: strips the "tracker:" prefix, drops "dht:" sources and
      passes every other source through. */
  method NormalizeSources(sources: seq<string>) returns (normalized: seq<string>)
    ensures normalized == NormalizedSources(sources)
  {
    normalized := [];
    for i := 0 to |sources|
      invariant normalized == NormalizedSources(sources[..i])
    {
      var source := sources[i];
      assert sources[..i + 1][..i] == sources[..i];
      if StartsWith(source, TrackerPrefix) {
        normalized := normalized + [RemovePrefix(source, TrackerPrefix)];
      } else if !StartsWith(source, DhtPrefix) {
        normalized := normalized + [source];
      }
    }
    assert sources[..|sources|] == sources;
  }

  lemma {:induction false} NormalizedSourcesAppend(a: seq<string>, b: seq<string>)
    ensures NormalizedSources(a + b) == NormalizedSources(a) + NormalizedSources(b)
    decreases |b|
  {
    if b == [] {
      assert a + b == a;
    } else {
      var n := |b| - 1;
      assert (a + b)[..|a + b| - 1] == a + b[..n];
      NormalizedSourcesAppend(a, b[..n]);
    }
  }

  /** Each source's contribution in place: a "tracker:" source appears with exactly that
      prefix removed, a "dht:" source contributes nothing, any other appears unchanged. */
  lemma NormalizedSourcesAround(a: seq<string>, x: string, b: seq<string>)
    ensures StartsWith(x, TrackerPrefix) ==>
      NormalizedSources(a + [x] + b)
      == NormalizedSources(a) + [x[|TrackerPrefix|..]] + NormalizedSources(b)
      && TrackerPrefix + x[|TrackerPrefix|..] == x
    ensures StartsWith(x, DhtPrefix) ==>
      NormalizedSources(a + [x] + b) == NormalizedSources(a) + NormalizedSources(b)
    ensures !StartsWith(x, TrackerPrefix) && !StartsWith(x, DhtPrefix) ==>
      NormalizedSources(a + [x] + b) == NormalizedSources(a) + [x] + NormalizedSources(b)
  {
    NormalizedSourcesSplit(a, x, b);
    PrefixesExclusive(x);
    if StartsWith(x, TrackerPrefix) {
      assert TrackerPrefix + x[|TrackerPrefix|..] == x;
    }
  }

  lemma NormalizedSourcesSplit(a: seq<string>, x: string, b: seq<string>)
    ensures NormalizedSources(a + [x] + b)
         == NormalizedSources(a) + NormalizedSource(x) + NormalizedSources(b)
  {
    NormalizedSourcesAppend(a + [x], b);
    NormalizedSourcesAppend(a, [x]);
    assert [x][..0] == [];
  }

  /** Every source with a "tracker:" prefix removed (others unchanged). */
  function Unprefixed(sources: seq<string>): (r: seq<string>)
    ensures |r| == |sources|
  {
    seq(|sources|, i requires 0 <= i < |sources| => RemovePrefix(sources[i], TrackerPrefix))
  }

  /** Which sources survive normalisation: all but the "dht:" ones. */
  function Kept(sources: seq<string>): (keep: seq<bool>)
    ensures |keep| == |sources|
  {
    seq(|sources|, i requires 0 <= i < |sources| => !StartsWith(sources[i], DhtPrefix))
  }

  /** The normalised list keeps the input order: it is the selection of the non-"dht:"
      sources from the inputs after prefix removal, and so no longer than the input. */
  lemma {:induction false} NormalizedSourcesSelects(sources: seq<string>)
    ensures NormalizedSources(sources) == Select(Unprefixed(sources), Kept(sources))
    ensures |NormalizedSources(sources)| <= |sources|
  {
    if sources != [] {
      var n := |sources| - 1;
      var prefix := sources[..n];
      NormalizedSourcesSelects(prefix);
      assert Unprefixed(sources)[..n] == Unprefixed(prefix);
      assert Kept(sources)[..n] == Kept(prefix);
      var x := sources[n];
      PrefixesExclusive(x);
    }
  }

  /** The worked example: a tracker source, a DHT hint and a peer. */
  lemma NormalizedSourcesExample()
    ensures NormalizedSources(["tracker:udp://a", "dht:x", "udp://peer1"]) == ["udp://a", "udp://peer1"]
  {
    var s := ["tracker:udp://a", "dht:x", "udp://peer1"];
    assert s[..2] == ["tracker:udp://a", "dht:x"] && s[..2][..1] == ["tracker:udp://a"];
    assert ["tracker:udp://a"][..0] == [];
    assert StartsWith("tracker:udp://a", TrackerPrefix);
    assert "dht:x"[0] != TrackerPrefix[0] && StartsWith("dht:x", DhtPrefix);
    assert "udp://peer1"[0] != TrackerPrefix[0] && "udp://peer1"[0] != DhtPrefix[0];
  }
}
