/**
 * `get_recommendations`: the entry point. An empty history goes to the cold
 * start; otherwise the favourites seed one fetch each, the candidates are
 * merged, and the answer is the top picks under a reserved key followed by the
 * genre buckets.
 *
 * The graph service's answers are parameters: `responses[i]` is the parsed
 * answer to the fetch for the i-th seed, `trending` the parsed trending page.
 */
module Recommender {
  import opened Wrappers
  import opened PyDict
  import opened PySorted
  import opened Grouping
  import opened Similar
  import opened FavoriteSelection
  import opened Aggregation
  import opened Bucketing
  import opened Trending

  const TopPicksKey: string := "\U{2B50} Top Picks For You"
  const TopPicksCount: int := 20

  function ByCandidateScore(item: (int, Candidate)): real
  {
    item.1.score
  }

  /** `[anime_id for anime_id, _ in sorted(all.items(), key=score, reverse=True)[:20]]`. */
  function TopPicks(all: Dict<int, Candidate>): seq<int>
  {
    Keys(Prefix(SortDesc(all, ByCandidateScore), TopPicksCount))
  }

  /** `{"⭐ Top Picks For You": top_picks, **final_recommendations}`. */
  function Answer(all: Dict<int, Candidate>, maxPerGenre: int): Dict<string, seq<int>>
  {
    PutAll([(TopPicksKey, TopPicks(all))], GenreBuckets(all, maxPerGenre))
  }

  /** The whole call, for a history, the parsed answer for each seed, the parsed trending page and `max_per_genre`. */
  function Recommendations(ratings: seq<Rating>, responses: seq<Option<Media>>,
                           trending: Option<seq<TrendingMedia>>, maxPerGenre: int): Dict<string, seq<int>>
    requires |responses| == |Seeds(ratings)|
  {
    if ratings == [] then ColdStart(trending)
    else Answer(Aggregated(Seeds(ratings), responses, RatedIds(ratings)), maxPerGenre)
  }

  /** Each picked item is a candidate, listed with its merged score. */
  lemma {:induction false} PickFrom(all: Dict<int, Candidate>, picked: seq<(int, Candidate)>, a: int)
    requires DistinctKeys(all)
    requires multiset(picked) <= multiset(all)
    requires 0 <= a < |picked|
    ensures HasKey(all, picked[a].0) && ScoreOf(all, picked[a].0) == picked[a].1.score
  {
    assert picked[a] in multiset(all);
    var i :| 0 <= i < |all| && all[i] == picked[a];
    GetAt(all, i);
  }

  /** Top picks: as many ids as there are candidates, up to 20, no id twice, all of
      them candidates, best merged score first. */
  lemma {:induction false} TopPicksSpec(all: Dict<int, Candidate>)
    requires DistinctKeys(all)
    ensures |TopPicks(all)| == (if |all| < 20 then |all| else 20)
    ensures forall a, b :: 0 <= a < b < |TopPicks(all)| ==> TopPicks(all)[a] != TopPicks(all)[b]
    ensures forall id :: id in TopPicks(all) ==> HasKey(all, id)
    ensures forall a, b :: 0 <= a < b < |TopPicks(all)| ==> ScoreOf(all, TopPicks(all)[a]) >= ScoreOf(all, TopPicks(all)[b])
  {
    var sorted := SortDesc(all, ByCandidateScore);
    var picked := Prefix(sorted, TopPicksCount);
    var top := TopPicks(all);
    SortDescPermutes(all, ByCandidateScore);
    SortDescOrdered(all, ByCandidateScore);
    SortDescDistinct(all, ByCandidateScore);
    assert picked == sorted[..|picked|];
    PrefixIncluded(sorted, |picked|);
    assert |top| == |picked|;
    forall id | id in top ensures HasKey(all, id) {
      var a :| 0 <= a < |top| && top[a] == id;
      PickFrom(all, picked, a);
    }
    forall a, b | 0 <= a < b < |top| ensures top[a] != top[b] {
      assert picked[a] == sorted[a] && picked[b] == sorted[b];
    }
    forall a, b | 0 <= a < b < |top| ensures ScoreOf(all, top[a]) >= ScoreOf(all, top[b]) {
      PickFrom(all, picked, a);
      PickFrom(all, picked, b);
      assert ByCandidateScore(sorted[a]) >= ByCandidateScore(sorted[b]);
    }
  }

  /** One candidate left out of the top picks against one pick. */
  lemma {:induction false} LeftOutBelowPick(all: Dict<int, Candidate>, i: int, a: int)
    requires DistinctKeys(all)
    requires 0 <= i < |all| && all[i].0 !in TopPicks(all)
    requires 0 <= a < |TopPicks(all)|
    ensures all[i].1.score <= ScoreOf(all, TopPicks(all)[a])
  {
    var picked := Prefix(SortDesc(all, ByCandidateScore), TopPicksCount);
    var top := TopPicks(all);
    TopSpec(all, ByCandidateScore, TopPicksCount);
    assert top == Keys(picked);
    forall b | 0 <= b < |picked| ensures picked[b] != all[i] {
      assert top[b] == picked[b].0;
    }
    assert all[i] !in picked;
    assert multiset(picked)[all[i]] == 0;
    assert all[i] in multiset(all);
    assert all[i] in multiset(all) - multiset(picked);
    PickFrom(all, picked, a);
    TopBeats(all, ByCandidateScore, TopPicksCount, all[i], picked[a]);
  }

  /** No candidate left out of the top picks scores higher than one picked. */
  lemma {:induction false} TopPicksDominate(all: Dict<int, Candidate>)
    requires DistinctKeys(all)
    ensures forall i, id :: 0 <= i < |all| && all[i].0 !in TopPicks(all) && id in TopPicks(all)
                            ==> all[i].1.score <= ScoreOf(all, id)
  {
    forall i, id | 0 <= i < |all| && all[i].0 !in TopPicks(all) && id in TopPicks(all)
      ensures all[i].1.score <= ScoreOf(all, id)
    {
      var a :| 0 <= a < |TopPicks(all)| && TopPicks(all)[a] == id;
      LeftOutBelowPick(all, i, a);
    }
  }

  /** Ties in the top picks: of the candidates that share the score `v`, the ones
      picked are the first ones in merged-map order, still in that order. */
  lemma {:induction false} TopPicksTies(all: Dict<int, Candidate>, v: real)
    ensures Keys(Prefix(SortDesc(all, ByCandidateScore), TopPicksCount)) == TopPicks(all)
    ensures var tied := WithKey(Prefix(SortDesc(all, ByCandidateScore), TopPicksCount), ByCandidateScore, v);
            |tied| <= |WithKey(all, ByCandidateScore, v)| && tied == WithKey(all, ByCandidateScore, v)[..|tied|]
  {
    TopStable(all, ByCandidateScore, TopPicksCount, v);
  }

  /** The reserved key always comes first and every key appears once; unless some
      candidate carries a genre spelled like the reserved key, the answer is the
      top picks followed by the genre buckets in their own order. */
  lemma {:induction false} AnswerShape(all: Dict<int, Candidate>, maxPerGenre: int)
    ensures var answer := Answer(all, maxPerGenre);
            |answer| >= 1 && answer[0].0 == TopPicksKey && DistinctKeys(answer)
    ensures (forall i :: 0 <= i < |all| ==> TopPicksKey !in all[i].1.genres)
            ==> Answer(all, maxPerGenre) == [(TopPicksKey, TopPicks(all))] + GenreBuckets(all, maxPerGenre)
  {
    var first: Dict<string, seq<int>> := [(TopPicksKey, TopPicks(all))];
    var buckets := GenreBuckets(all, maxPerGenre);
    PutAllFirst(first, buckets);
    BucketGet(all, maxPerGenre, TopPicksKey);
    PutAllDistinct(first, buckets);
    if forall i :: 0 <= i < |all| ==> TopPicksKey !in all[i].1.genres {
      forall j | 0 <= j < |buckets| ensures buckets[j].0 != TopPicksKey {
        BucketGet(all, maxPerGenre, buckets[j].0);
        GetAt(buckets, j);
        var tagged := Tagged(all, buckets[j].0);
        if tagged != [] {
          TaggedFrom(all, buckets[j].0, tagged[0]);
        }
      }
      assert DistinctKeys(first + buckets) by {
        forall a, b | 0 <= a < b < |first + buckets| ensures (first + buckets)[a].0 != (first + buckets)[b].0 {
          assert (first + buckets)[b] == buckets[b - 1];
          if a > 0 {
            assert (first + buckets)[a] == buckets[a - 1];
          }
        }
      }
      PutAllFresh(first, buckets);
    }
  }

  /** Every id in every list of the answer is a merged candidate. */
  lemma {:induction false} AnswerIds(all: Dict<int, Candidate>, maxPerGenre: int)
    requires DistinctKeys(all)
    ensures forall e, id :: e in Answer(all, maxPerGenre) && id in e.1 ==> HasKey(all, id)
  {
    var first: Dict<string, seq<int>> := [(TopPicksKey, TopPicks(all))];
    var buckets := GenreBuckets(all, maxPerGenre);
    PutAllItems(first, buckets);
    TopPicksSpec(all);
    BucketGet(all, maxPerGenre, "");
    forall e, id | e in buckets && id in e.1 ensures HasKey(all, id) {
      var j :| 0 <= j < |buckets| && buckets[j] == e;
      GetAt(buckets, j);
      BucketSpec(all, maxPerGenre, e.0, e.1);
    }
  }

  /** No anime the user rated is recommended anywhere, neither in the top picks
      nor in any genre bucket. */
  lemma {:induction false} NothingRatedIsRecommended(ratings: seq<Rating>, responses: seq<Option<Media>>,
                                                     trending: Option<seq<TrendingMedia>>, maxPerGenre: int)
    requires |responses| == |Seeds(ratings)|
    requires ratings != []
    ensures forall e, r :: e in Recommendations(ratings, responses, trending, maxPerGenre) && r in ratings
                           ==> r.animeId !in e.1
  {
    var seen := RatedIds(ratings);
    var all := Aggregated(Seeds(ratings), responses, seen);
    MergeSeedsDistinct(SeedResults(Seeds(ratings), responses), seen);
    AnswerIds(all, maxPerGenre);
    forall e, r | e in Answer(all, maxPerGenre) && r in ratings ensures r.animeId !in e.1 {
      assert r.animeId in seen;
      forall j | 0 <= j < |all| ensures all[j].0 != r.animeId {
        assert all[j] in all;
      }
      assert !HasKey(all, r.animeId);
    }
  }

  /** Two seeds that both produce an unrated id: the merged score is the sum of theirs. */
  lemma {:induction false} MergeAdds(seeds: seq<Rating>, responses: seq<Option<Media>>, seen: set<int>, k: int, c1: Candidate, c2: Candidate)
    requires |seeds| == 2 && |responses| == 2
    requires k !in seen
    requires Get(SimilarFor(seeds[0].rating, responses[0]), k) == Some(c1)
    requires Get(SimilarFor(seeds[1].rating, responses[1]), k) == Some(c2)
    ensures Get(Aggregated(seeds, responses, seen), k) == Some(Candidate(c1.score + c2.score, c1.genres))
  {
    var perSeed := SeedResults(seeds, responses);
    AggregatedGet(seeds, responses, seen, k);
    assert perSeed[..1][..0] == [];
    assert TotalScore(perSeed[..1], k) == c1.score;
    assert FirstGenres(perSeed[..1], k) == Some(c1.genres);
  }

  /** An empty history with an unreadable trending page gets exactly the static answer. */
  lemma {:induction false} EmptyHistoryFallsBack(maxPerGenre: int)
    ensures Recommendations([], [], None, maxPerGenre)
            == [("Trending Now", [5114, 16498, 11061, 1535, 9253, 30276, 38000, 40748, 28851, 32281])]
  {
  }

  method GetRecommendations(userRatings: seq<Rating>, responses: seq<Option<Media>>,
                            trending: Option<seq<TrendingMedia>>, maxPerGenre: int)
    returns (result: Dict<string, seq<int>>)
    requires |responses| == |Seeds(userRatings)|
    ensures result == Recommendations(userRatings, responses, trending, maxPerGenre)
    ensures DistinctKeys(result)
    ensures userRatings != [] ==> |result| >= 1 && result[0].0 == TopPicksKey
  {
    if |userRatings| < 1 {
      result := DefaultRecommendations(trending);
      return;
    }
    var favorites := Favorites(userRatings);
    var seeds := Prefix(favorites, SeedCount);
    var seenIds := RatedIds(userRatings);
    var allRecommendations := Aggregate(seeds, responses, seenIds);

    var genreRecommendations := GroupByGenre(allRecommendations);
    var finalRecommendations := RankAndCap(genreRecommendations, maxPerGenre);
    finalRecommendations := SortDesc(finalRecommendations, ByLength);

    var allSorted := SortDesc(allRecommendations, ByCandidateScore);
    var topPicks := Keys(Prefix(allSorted, TopPicksCount));
    result := PutAll([(TopPicksKey, topPicks)], finalRecommendations);
    AnswerShape(allRecommendations, maxPerGenre);
  }
}
