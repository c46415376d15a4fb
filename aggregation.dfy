/**
 * The merge loop of `get_recommendations`: fetch the candidates of every seed
 * in turn and merge them into one dict, skipping anime the user has already
 * rated. The first seed to produce an id inserts it; later ones add their
 * score to it and leave its genres alone.
 */
module Aggregation {
  import opened Wrappers
  import opened PyDict
  import opened FavoriteSelection
  import opened Similar

  /** `set([r["anime_id"] for r in user_ratings])`. */
  function RatedIds(ratings: seq<Rating>): set<int>
  {
    set r | r in ratings :: r.animeId
  }

  /** One step of the inner loop, for the candidate `(k, c)` of the current seed. */
  function Merge(all: Dict<int, Candidate>, k: int, c: Candidate, seen: set<int>): Dict<int, Candidate>
  {
    if k in seen then all
    else
      match Get(all, k)
      case None => Put(all, k, c)
      case Some(earlier) => Put(all, k, Candidate(earlier.score + c.score, earlier.genres))
  }

  /** The inner loop over one seed's dict. */
  function MergeEach(all: Dict<int, Candidate>, similar: Dict<int, Candidate>, seen: set<int>): Dict<int, Candidate>
  {
    if similar == [] then all
    else
      var n := |similar| - 1;
      Merge(MergeEach(all, similar[..n], seen), similar[n].0, similar[n].1, seen)
  }

  /** Both loops, over the dicts of all seeds in seed order, from an empty dict. */
  function MergeSeeds(perSeed: seq<Dict<int, Candidate>>, seen: set<int>): Dict<int, Candidate>
  {
    if perSeed == [] then []
    else
      var n := |perSeed| - 1;
      MergeEach(MergeSeeds(perSeed[..n], seen), perSeed[n], seen)
  }

  /** The dict each seed's fetch returns; `responses[i]` is what the graph service answered for `seeds[i]`. */
  function SeedResults(seeds: seq<Rating>, responses: seq<Option<Media>>): seq<Dict<int, Candidate>>
    requires |responses| == |seeds|
  {
    seq(|seeds|, i requires 0 <= i < |seeds| => SimilarFor(seeds[i].rating, responses[i]))
  }

  function Aggregated(seeds: seq<Rating>, responses: seq<Option<Media>>, seen: set<int>): Dict<int, Candidate>
    requires |responses| == |seeds|
  {
    MergeSeeds(SeedResults(seeds, responses), seen)
  }

  /** The sum over seeds of the score each gives `k`. */
  function TotalScore(perSeed: seq<Dict<int, Candidate>>, k: int): real
  {
    if perSeed == [] then 0.0
    else
      var n := |perSeed| - 1;
      TotalScore(perSeed[..n], k) + ScoreOf(perSeed[n], k)
  }

  /** The genres the first seed that produced `k` gave it, if any seed did. */
  function FirstGenres(perSeed: seq<Dict<int, Candidate>>, k: int): Option<seq<string>>
  {
    if perSeed == [] then None
    else
      var n := |perSeed| - 1;
      match FirstGenres(perSeed[..n], k)
      case Some(genres) => Some(genres)
      case None =>
        match Get(perSeed[n], k)
        case None => None
        case Some(c) => Some(c.genres)
  }

  lemma {:induction false} MergeGet(all: Dict<int, Candidate>, k: int, c: Candidate, seen: set<int>, h: int)
    ensures Get(Merge(all, k, c, seen), h)
            == if h != k || k in seen then Get(all, h)
               else match Get(all, h)
                    case None => Some(c)
                    case Some(earlier) => Some(Candidate(earlier.score + c.score, earlier.genres))
  {
    if k !in seen {
      match Get(all, k)
      case None => PutGet(all, k, c, h);
      case Some(earlier) => PutGet(all, k, Candidate(earlier.score + c.score, earlier.genres), h);
    }
  }

  /** Merging one seed's dict: an unrated `k` the merged dict lacks is copied
      from the seed, one it has gains the seed's score; rated ids are untouched. */
  lemma {:induction false} MergeEachGet(all: Dict<int, Candidate>, similar: Dict<int, Candidate>, seen: set<int>, k: int)
    requires DistinctKeys(similar)
    ensures Get(MergeEach(all, similar, seen), k)
            == if k in seen then Get(all, k)
               else match Get(all, k)
                    case None => Get(similar, k)
                    case Some(c) => Some(Candidate(c.score + ScoreOf(similar, k), c.genres))
  {
    if similar != [] {
      var n := |similar| - 1;
      var before := similar[..n];
      assert similar == before + [similar[n]];
      assert DistinctKeys(before);
      MergeEachGet(all, before, seen, k);
      MergeGet(MergeEach(all, before, seen), similar[n].0, similar[n].1, seen, k);
      GetAppend(before, similar[n], k);
      if similar[n].0 == k {
        forall j | 0 <= j < n ensures before[j].0 != k {
          assert before[j] == similar[j];
        }
        GetHasKey(before, k);
      }
    }
  }

  lemma {:induction false} MergeEachDistinct(all: Dict<int, Candidate>, similar: Dict<int, Candidate>, seen: set<int>)
    requires DistinctKeys(all)
    requires forall e :: e in all ==> e.0 !in seen
    ensures DistinctKeys(MergeEach(all, similar, seen))
    ensures forall e :: e in MergeEach(all, similar, seen) ==> e.0 !in seen
  {
    if similar != [] {
      var n := |similar| - 1;
      var before := MergeEach(all, similar[..n], seen);
      MergeEachDistinct(all, similar[..n], seen);
      var k, c := similar[n].0, similar[n].1;
      if k !in seen {
        var v := match Get(before, k) case None => c case Some(e) => Candidate(e.score + c.score, e.genres);
        PutDistinct(before, k, v);
        PutItems(before, k, v);
      }
    }
  }

  lemma {:induction false} TotalScoreUnproduced(perSeed: seq<Dict<int, Candidate>>, k: int)
    requires FirstGenres(perSeed, k).None?
    ensures TotalScore(perSeed, k) == 0.0
  {
    if perSeed != [] {
      TotalScoreUnproduced(perSeed[..|perSeed| - 1], k);
    }
  }

  /** Aggregation over all seeds: a rated id is never in the merged dict; an
      unrated id is there exactly when some seed produced it, with the sum of its
      per-seed scores and the genres of the first seed that produced it. */
  lemma {:induction false} MergeSeedsGet(perSeed: seq<Dict<int, Candidate>>, seen: set<int>, k: int)
    requires forall i :: 0 <= i < |perSeed| ==> DistinctKeys(perSeed[i])
    ensures Get(MergeSeeds(perSeed, seen), k)
            == if k in seen || FirstGenres(perSeed, k).None? then None
               else Some(Candidate(TotalScore(perSeed, k), FirstGenres(perSeed, k).value))
  {
    if perSeed != [] {
      var n := |perSeed| - 1;
      MergeSeedsGet(perSeed[..n], seen, k);
      MergeEachGet(MergeSeeds(perSeed[..n], seen), perSeed[n], seen, k);
      if FirstGenres(perSeed[..n], k).None? {
        TotalScoreUnproduced(perSeed[..n], k);
      }
    }
  }

  lemma {:induction false} MergeSeedsDistinct(perSeed: seq<Dict<int, Candidate>>, seen: set<int>)
    ensures DistinctKeys(MergeSeeds(perSeed, seen))
    ensures forall e :: e in MergeSeeds(perSeed, seen) ==> e.0 !in seen
  {
    if perSeed != [] {
      var n := |perSeed| - 1;
      MergeSeedsDistinct(perSeed[..n], seen);
      MergeEachDistinct(MergeSeeds(perSeed[..n], seen), perSeed[n], seen);
    }
  }

  /** No anime the user rated is ever merged; every merged anime was produced by
      some seed, and its score is the sum of what the seeds gave it. */
  lemma {:induction false} AggregatedGet(seeds: seq<Rating>, responses: seq<Option<Media>>, seen: set<int>, k: int)
    requires |responses| == |seeds|
    ensures var perSeed := SeedResults(seeds, responses);
            Get(Aggregated(seeds, responses, seen), k)
            == if k in seen || FirstGenres(perSeed, k).None? then None
               else Some(Candidate(TotalScore(perSeed, k), FirstGenres(perSeed, k).value))
  {
    var perSeed := SeedResults(seeds, responses);
    forall i | 0 <= i < |perSeed| ensures DistinctKeys(perSeed[i]) {
      SimilarDistinct(seeds[i].rating, responses[i]);
    }
    MergeSeedsGet(perSeed, seen, k);
  }

  /** Every id the seeds produced, seed by seed, each seed's dict in its own order. */
  function Produced(perSeed: seq<Dict<int, Candidate>>): seq<int>
  {
    if perSeed == [] then []
    else
      var n := |perSeed| - 1;
      Produced(perSeed[..n]) + Keys(perSeed[n])
  }

  /** One merge step leaves every merged id where it stands; a new unrated id goes last. */
  lemma {:induction false} MergeKeys(all: Dict<int, Candidate>, k: int, c: Candidate, seen: set<int>)
    ensures Keys(Merge(all, k, c, seen)) == Keys(all) + (if k in seen || k in Keys(all) then [] else [k])
  {
    if k !in seen {
      match Get(all, k)
      case None => PutKeys(all, k, c);
      case Some(earlier) => PutKeys(all, k, Candidate(earlier.score + c.score, earlier.genres));
    }
  }

  lemma {:induction false} MergeEachKeys(all: Dict<int, Candidate>, similar: Dict<int, Candidate>, seen: set<int>, prev: seq<int>)
    requires Keys(all) == FirstOccurrences(prev, seen)
    ensures Keys(MergeEach(all, similar, seen)) == FirstOccurrences(prev + Keys(similar), seen)
  {
    if similar == [] {
      assert prev + Keys(similar) == prev;
    } else {
      var n := |similar| - 1;
      var before := MergeEach(all, similar[..n], seen);
      MergeEachKeys(all, similar[..n], seen, prev);
      MergeKeys(before, similar[n].0, similar[n].1, seen);
      FirstOccurrencesMembers(prev + Keys(similar[..n]), seen, similar[n].0);
      FirstOccurrencesSnoc(prev, similar, seen);
    }
  }

  /** Order of the merged dict: the unrated ids in the order the seeds first
      produced them, seed by seed; a later seed adding to an id does not move it. */
  lemma {:induction false} MergeSeedsKeys(perSeed: seq<Dict<int, Candidate>>, seen: set<int>)
    ensures Keys(MergeSeeds(perSeed, seen)) == FirstOccurrences(Produced(perSeed), seen)
  {
    if perSeed != [] {
      var n := |perSeed| - 1;
      MergeSeedsKeys(perSeed[..n], seen);
      MergeEachKeys(MergeSeeds(perSeed[..n], seen), perSeed[n], seen, Produced(perSeed[..n]));
    }
  }

  /** The merged dict lists the unrated anime in the order the seeds first produced them. */
  lemma {:induction false} AggregatedOrder(seeds: seq<Rating>, responses: seq<Option<Media>>, seen: set<int>)
    requires |responses| == |seeds|
    ensures Keys(Aggregated(seeds, responses, seen)) == FirstOccurrences(Produced(SeedResults(seeds, responses)), seen)
  {
    MergeSeedsKeys(SeedResults(seeds, responses), seen);
  }

  /** The inner loop: merge one seed's dict into the merged dict. */
  method MergeSimilar(all: Dict<int, Candidate>, similar: Dict<int, Candidate>, seen: set<int>)
    returns (merged: Dict<int, Candidate>)
    ensures merged == MergeEach(all, similar, seen)
  {
    merged := all;
    for j := 0 to |similar|
      invariant merged == MergeEach(all, similar[..j], seen)
    {
      assert similar[..j + 1][..j] == similar[..j];
      var (animeId, animeData) := similar[j];
      if animeId !in seen {
        match Get(merged, animeId)
        case None =>
          merged := Put(merged, animeId, animeData);
        case Some(earlier) =>
          merged := Put(merged, animeId, Candidate(earlier.score + animeData.score, earlier.genres));
      }
    }
    assert similar[..|similar|] == similar;
  }

  /** The loop over the seeds, fetching each seed's candidates and merging them. */
  method Aggregate(seeds: seq<Rating>, responses: seq<Option<Media>>, seen: set<int>) returns (all: Dict<int, Candidate>)
    requires |responses| == |seeds|
    ensures all == Aggregated(seeds, responses, seen)
    ensures DistinctKeys(all)
    ensures forall i :: 0 <= i < |all| ==> all[i].0 !in seen
  {
    ghost var perSeed := SeedResults(seeds, responses);
    all := [];
    for i := 0 to |seeds|
      invariant all == MergeSeeds(perSeed[..i], seen)
    {
      assert perSeed[..i + 1][..i] == perSeed[..i];
      var similar := FetchSimilar(seeds[i].rating, responses[i]);
      all := MergeSimilar(all, similar, seen);
    }
    assert perSeed[..|seeds|] == perSeed;
    MergeSeedsDistinct(perSeed, seen);
    assert forall i :: 0 <= i < |all| ==> all[i] in all;
  }
}
