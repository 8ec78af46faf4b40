/** The entries of a series' "videos" list and the grouping of those entries under their
    season number in a `defaultdict(list)`, as done when a series' metadata is fetched
    and by the command-line prototype. */
module Videos {
  import opened Subsequences

  /** One entry of a series' "videos" list: the fields the grouping code reads. */
  datatype Video = Video(season: int, episode: int, name: string)

  /** The videos of season `s`, in input order. */
  function OfSeason(videos: seq<Video>, s: int): (r: seq<Video>)
    ensures |r| <= |videos|
    ensures forall k :: 0 <= k < |r| ==> r[k].season == s
  {
    if videos == [] then []
    else
      var last := videos[|videos| - 1];
      OfSeason(videos[..|videos| - 1], s) + (if last.season == s then [last] else [])
  }

  lemma OfSeasonSnoc(videos: seq<Video>, v: Video, s: int)
    ensures OfSeason(videos + [v], s) == OfSeason(videos, s) + (if v.season == s then [v] else [])
  {
    assert (videos + [v])[..|videos|] == videos;
  }

  /** A season's videos are exactly the input videos of that season, in input order. */
  lemma {:induction false} OfSeasonSelects(videos: seq<Video>, s: int)
    ensures OfSeason(videos, s) == Select(videos, seq(|videos|, k requires 0 <= k < |videos| => videos[k].season == s))
  {
    if videos != [] {
      var n := |videos| - 1;
      var keep := seq(|videos|, k requires 0 <= k < |videos| => videos[k].season == s);
      var prefix := videos[..n];
      OfSeasonSelects(prefix, s);
      assert keep[..n] == seq(|prefix|, k requires 0 <= k < |prefix| => prefix[k].season == s);
    }
  }

  /** Every video of season `s` is among the videos of season `s`. */
  lemma {:induction false} OfSeasonContains(videos: seq<Video>, k: nat)
    requires k < |videos|
    ensures videos[k] in OfSeason(videos, videos[k].season)
  {
    var n := |videos| - 1;
    if k < n {
      OfSeasonContains(videos[..n], k);
    }
  }

  /** A season that does not occur has no videos. */
  lemma {:induction false} NoneSelected(videos: seq<Video>, s: int)
    requires s !in SeasonKeys(videos)
    ensures OfSeason(videos, s) == []
  {
    if videos != [] {
      var n := |videos| - 1;
      assert SeasonKeys(videos[..n]) <= SeasonKeys(videos) by {
        forall k | 0 <= k < n ensures videos[..n][k].season in SeasonKeys(videos) {
          assert videos[..n][k] == videos[k];
        }
      }
      NoneSelected(videos[..n], s);
      assert videos[n].season in SeasonKeys(videos);
    }
  }

  /** The season numbers that occur in `videos`. */
  function SeasonKeys(videos: seq<Video>): set<int> {
    set k | 0 <= k < |videos| :: videos[k].season
  }

  /** `seasons = defaultdict(list); for video in videos: seasons[video["season"]].append(video)`. */
  method GroupBySeason(videos: seq<Video>) returns (seasons: map<int, seq<Video>>)
    ensures seasons.Keys == SeasonKeys(videos)
    ensures forall s :: s in seasons ==> seasons[s] == OfSeason(videos, s)
  {
    seasons := map[];
    for i := 0 to |videos|
      invariant GroupsOf(seasons, videos[..i])
    {
      var video := videos[i];
      assert videos[..i + 1] == videos[..i] + [video];
      // a missing key reads as a fresh empty list
      var bucket := if video.season in seasons then seasons[video.season] else [];
      GroupStep(seasons, videos[..i], video);
      seasons := seasons[video.season := bucket + [video]];
    }
    assert videos[..|videos|] == videos;
  }

  /** `seasons` maps exactly the season numbers of `videos` to their videos. */
  predicate GroupsOf(seasons: map<int, seq<Video>>, videos: seq<Video>) {
    && seasons.Keys == SeasonKeys(videos)
    && forall s :: s in seasons ==> seasons[s] == OfSeason(videos, s)
  }

  lemma {:induction false} SeasonKeysSnoc(videos: seq<Video>, v: Video)
    ensures SeasonKeys(videos + [v]) == SeasonKeys(videos) + {v.season}
  {
    var vs := videos + [v];
    assert forall k :: 0 <= k < |videos| ==> vs[k] == videos[k];
    assert vs[|videos|] == v;
  }

  /** One append into the default dictionary keeps the grouping exact. */
  lemma {:induction false} GroupStep(seasons: map<int, seq<Video>>, videos: seq<Video>, v: Video)
    requires GroupsOf(seasons, videos)
    ensures var bucket := if v.season in seasons then seasons[v.season] else [];
      GroupsOf(seasons[v.season := bucket + [v]], videos + [v])
  {
    var bucket := if v.season in seasons then seasons[v.season] else [];
    var after := seasons[v.season := bucket + [v]];
    SeasonKeysSnoc(videos, v);
    forall s | s in after
      ensures after[s] == OfSeason(videos + [v], s)
    {
      OfSeasonSnoc(videos, v, s);
      if s == v.season && s !in seasons {
        NoneSelected(videos, s);
      }
    }
  }

  /** After grouping, every video sits in the list of its own season. */
  lemma GroupedUnderOwnSeason(videos: seq<Video>, seasons: map<int, seq<Video>>, k: nat)
    requires seasons.Keys == SeasonKeys(videos)
    requires forall s :: s in seasons ==> seasons[s] == OfSeason(videos, s)
    requires k < |videos|
    ensures videos[k].season in seasons && videos[k] in seasons[videos[k].season]
  {
    OfSeasonContains(videos, k);
  }
}
