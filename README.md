# myanibuddy recommender, modelled in Dafny

This project models the recommendation core of the myanibuddy backend
(`recommender.py`). It covers `get_recommendations`, the scoring part of
`fetch_similar_anime_with_genres` and the bucketing part of
`get_default_recommendations`.

- **Favourites and seeds.** A user's history of `(anime_id, rating)` rows picks the favourites: every rating of 7 or more, in history order. If there are none, the favourites are the five best ratings, best first.
- **Fetching candidates.** The first eight favourites are seeds. Each seed yields a dict of candidate anime, scored from the AniList graph's recommendation and relation edges.
- **Merging.** The per-seed dicts are merged. Already-rated anime are dropped and repeated ids add up their scores.
- **The answer.** It is the 20 best candidates under the reserved key `"⭐ Top Picks For You"`, followed by one bucket per genre. Each bucket holds at most `max_per_genre` ids, best score first; `max_per_genre` defaults to 15 (`recommender.py:4`), and the model keeps it a parameter. Genres are ordered by bucket size, largest first.
- **Cold start.** An empty history is answered from a page of trending anime, bucketed by genre, at most 15 per genre. If that page cannot be read, the answer is a fixed "Trending Now" list of ten ids.

How the model is built:

- **Dicts.** Python dicts are association lists that keep insertion order (`PyDict`). Iteration order decides how ties are broken, so it matters here.
- **Sorting.** `sorted(..., reverse=True)` is a stable insertion sort that keeps equal keys in input order (`PySorted.SortDesc`). `xs[:n]` is `PySorted.Prefix`, including negative `n`.
- **Scores.** Scores and ratings are `real`.
- **The graph service.** Its answers are parameters of the model, already decoded into datatypes:
  - `Option<Media>` per seed, where `None` stands for a failed request or a response without `data` or `Media`;
  - `Option<seq<TrendingMedia>>` for the trending page.
- **JSON fields.** A field that may be missing, null or present is a `Field`, because the code treats the three cases differently. A null `popularity` raises inside the `try`, so the whole seed yields `{}`.
- **Loops become methods.** Each loop of the source is a method proved equal to a specification function written by recursion from the end of the input. The properties are lemmas about those functions.

Behaviour of the code a reader may not expect:

- **The `['Other']` default for a candidate without `genres` (`recommender.py:41`) never fires.** Every candidate produced by the fetch carries a `genres` list, which is empty when the edge had none. A candidate without genres therefore lands in no genre bucket, although it can still be a top pick.
- **An empty trending page gives `{}`, not the fallback** (`Trending.EmptyPageGivesNothing`). The fallback comes only from a raise, a response without a `data` key, or a falsy `Page` (`recommender.py:171`, `189-191`).
- **The cold-start answer has no top-picks key**, although the comment at `recommender.py:61` says the mixed section is always added. Only the non-empty-history path puts `"⭐ Top Picks For You"` first.
- **A negative `max_per_genre` follows Python's slice rule.** `xs[:-1]` drops the last id, so buckets are not bounded by a negative cap.

## Model

| member | source | states |
|---|---|---|
| `FavoriteSelection.Seeds` | recommender.py:25 | at most 8 seeds, and they are the first favourites in order |
| `FavoriteSelection.LikedMembers` | recommender.py:14 | a rating is liked exactly when it is in the history and is at least 7 |
| `FavoriteSelection.NoneLiked` | recommender.py:14-16 | with no rating of 7 or more the liked list is empty, so the fallback branch runs |
| `FavoriteSelection.LikedConcat` | recommender.py:14 | the filter keeps history order (it distributes over concatenation) |
| `FavoriteSelection.FavoritesWhenSomeLiked` | recommender.py:14-17 | if any rating is at least 7, the favourites are exactly the liked ratings, in history order |
| `FavoriteSelection.FavoritesWhenNoneLiked` | recommender.py:16-17 | otherwise they are the first min(5, n) ratings. The full order is non-increasing by rating, a permutation of the history and stable on ties |
| `FavoriteSelection.FallbackDominates` | recommender.py:16-17 | in that case no rating left out of the favourites is higher than a favourite's |
| `FavoriteSelection.FavoritesExampleLiked` | recommender.py:14-17 | the history 1:9, 2:5, 3:8 has favourites 1:9, 3:8 |
| `FavoriteSelection.FavoritesExampleNoneLiked` | recommender.py:16-17 | the history 1:3, 2:6, 3:1, 4:5, 5:2, 6:4 has favourites 2:6, 4:5, 6:4, 1:3, 5:2 |
| `Similar.FetchSimilar` | recommender.py:108-145 | the loops over both edge lists compute the seed's dict `SimilarFor`. It has distinct keys and never the id 0 |
| `Similar.ScoreRecommendations` | recommender.py:114-128 | the recommendations loop makes exactly the assignments `RecommendationWrites` lists, or reports the raise. The dict keeps distinct, non-zero keys |
| `Similar.ScoreRelations` | recommender.py:131-139 | the relations loop appends exactly the assignments `RelationWrites` lists to those already made. Keys stay distinct and non-zero |
| `Similar.RecommendationScore` | recommender.py:114-128 | a recommendation with a truthy id scores `rating + popularity/10000 + averageScore/100`, a missing field counting 0, and keeps its genres or `[]`. The last such edge for an id wins unless a boosted relation writes the id too |
| `Similar.RelationScore` | recommender.py:131-139 | a relation with a truthy id and type SEQUEL, PREQUEL, SIDE_STORY, ALTERNATIVE or SPIN_OFF scores `rating * 1.5` and overwrites any recommendation entry for the same id |
| `Similar.SimilarKeys` | recommender.py:114-139 | an id is in the seed's dict only if it is non-zero and some recommendation edge or boosted relation edge carries it |
| `Similar.RecommendationWritesKeys` | recommender.py:115-128 | the recommendations loop writes an id exactly when some node recommends it |
| `Similar.RelationWritesKeys` | recommender.py:132-139 | the relations loop writes an id exactly when some node boosts it |
| `Similar.RecommendationWritesLast` | recommender.py:125-128 | for each id, the last recommending node decides the entry |
| `Similar.RelationWritesLast` | recommender.py:136-139 | for each id, the last boosting node decides the entry |
| `Similar.RaiseAbsorbs` | recommender.py:143-145 | once a recommendation node raises, the whole seed raises |
| `Similar.NullNumberDiscardsSeed` | recommender.py:122-145 | a null `popularity` or `averageScore` on a recommendation with a truthy id makes the seed contribute `{}` |
| `Similar.SimilarOrder` | recommender.py:125-139 | the seed's dict lists each assigned id once, where it was first assigned; a relation overwriting a recommended id leaves it in place |
| `Similar.RecommendedFirst` | recommender.py:114-139 | the recommended ids, in recommendation order, come before every id that only a relation brought in |
| `Similar.SimilarDistinct` | recommender.py:108-141 | the seed's dict never holds an id twice |
| `Aggregation.Aggregate` | recommender.py:20-33 | the nested merge loop computes `Aggregated`. Its keys are distinct and none was rated by the user |
| `Aggregation.MergeSimilar` | recommender.py:27-33 | the inner loop merges one seed's dict as `MergeEach` says |
| `Aggregation.AggregatedGet` | recommender.py:21-33 | a rated id is never merged. An unrated id is merged exactly when some seed produced it, with the sum of the seeds' scores and the first producing seed's genres |
| `Aggregation.MergeSeedsGet` | recommender.py:25-33 | the same, over any sequence of per-seed dicts |
| `Aggregation.MergeEachGet` | recommender.py:27-33 | merging one seed's dict copies a new unrated id, adds the score of a known one, and leaves rated ids alone |
| `Aggregation.MergeGet` | recommender.py:28-33 | one merge step: insert as-is if new, add the score and keep the genres if known, skip if rated |
| `Aggregation.AggregatedOrder` | recommender.py:20-33 | the merged dict lists the unrated ids in the order seeds first produced them: seed order, then each seed dict's own order. A later seed adding to an id does not move it |
| `Aggregation.MergeSeedsKeys` | recommender.py:25-33 | the same, over any sequence of per-seed dicts |
| `Aggregation.MergeEachKeys` | recommender.py:27-33 | merging one seed's dict appends its new unrated ids in its order and moves no merged id |
| `Aggregation.MergeKeys` | recommender.py:28-33 | one merge step appends the id only if it is unrated and new; otherwise the key order is unchanged |
| `Aggregation.MergeEachDistinct` | recommender.py:27-33 | merging keeps keys distinct and keeps rated ids out |
| `Aggregation.MergeSeedsDistinct` | recommender.py:21-33 | the merged dict has distinct keys and no rated id |
| `Recommender.MergeAdds` | recommender.py:27-33 | an unrated id produced by two seeds with scores s1 and s2 is merged with score s1 + s2 and the first seed's genres |
| `Grouping.AppendToEach` | recommender.py:41-43 | appending an item under each of its genres adds one copy per occurrence of the genre and nothing under any other genre |
| `Grouping.AppendEachAt` | recommender.py:41-43 | the same for the specification function |
| `Grouping.GroupAt` | recommender.py:38-45 | after grouping, genre `g` holds the payloads of the items carrying `g`, in item order |
| `Grouping.GroupShape` | recommender.py:38-45 | the grouped dict has distinct keys and no empty list |
| `Grouping.GroupGet` | recommender.py:38-45 | genre `g` is a key exactly when some item carries it |
| `Grouping.MembersFrom` | recommender.py:40-43 | everything filed under `g` comes from an item that carries `g` |
| `Grouping.MembersHas` | recommender.py:40-43 | every item that carries `g` is filed under `g` |
| `Bucketing.GroupByGenre` | recommender.py:38-45 | the grouping loop files each candidate's `(id, score)` under each of its genres, in merged-dict order |
| `Bucketing.TaggedFrom` | recommender.py:40-45 | every entry under `g` is a candidate carrying `g`, with its merged score |
| `Bucketing.TaggedHas` | recommender.py:40-45 | every candidate carrying `g` is filed under `g` |
| `Bucketing.RankAndCap` | recommender.py:47-53 | the ranking loop computes `Ranked`: each genre's ids sorted by score and cut to the cap, empty lists dropped |
| `Bucketing.RankedGet` | recommender.py:48-53 | a genre stays exactly when its ranked list is non-empty, and then holds that list |
| `Bucketing.RankedDistinct` | recommender.py:48-53 | the ranked dict has distinct keys |
| `Bucketing.BucketGet` | recommender.py:38-57 | after ordering, each genre still maps to its ranked list and keys stay distinct |
| `Bucketing.BucketSpec` | recommender.py:38-53 | every bucket is non-empty, never longer than a non-negative `max_per_genre` and as long as Python's slice says. It holds candidates carrying the genre, in non-increasing merged score |
| `Bucketing.BucketDominates` | recommender.py:49-51 | no candidate of the genre that was left out scores higher than one kept |
| `Bucketing.BucketTies` | recommender.py:49-51 | among entries of equal score, those kept are the first in merged-dict order, in that order |
| `Bucketing.BucketPresence` | recommender.py:40-53 | with `max_per_genre` ≥ 1, a genre is a key exactly when some candidate carries it |
| `Bucketing.GenreOrder` | recommender.py:40-57 | genres come out in non-increasing bucket length; the genres of each length come out in the order the grouping loop first met them |
| `Bucketing.RankedKeys` | recommender.py:49-53 | the ranking loop keeps the surviving genres, those whose ranked list is not empty, in the order of the grouped dict |
| `Bucketing.RankedTies` | recommender.py:49-53 | for each bucket length, the surviving genres of that length keep the grouped dict's order |
| `Grouping.GroupKeys` | recommender.py:38-45 | the defaultdict's keys are the genres in the order the loop first meets them |
| `Grouping.AppendEachKeys` | recommender.py:41-42 | appending under each genre of one candidate adds its new genres, in its order, after the existing keys |
| `Recommender.TopPicksSpec` | recommender.py:62-63 | top picks hold min(20, number of candidates) distinct ids. All are candidates, in non-increasing merged score |
| `Recommender.TopPicksDominate` | recommender.py:62-63 | no candidate left out of the top picks scores higher than one picked |
| `Recommender.TopPicksTies` | recommender.py:62-63 | among candidates of equal score, those picked are the first in merged-dict order |
| `Recommender.AnswerShape` | recommender.py:65-68 | the reserved key is always first and keys are distinct. If no candidate has a genre spelled like the reserved key, the answer is the top picks followed by the genre buckets in their order |
| `Recommender.AnswerIds` | recommender.py:38-68 | every id in every list of the answer is a merged candidate |
| `Recommender.NothingRatedIsRecommended` | recommender.py:21-68 | for a non-empty history, no rated anime appears in the top picks or in any bucket |
| `Recommender.EmptyHistoryFallsBack` | recommender.py:10-11 | an empty history with an unreadable trending page gets exactly `{"Trending Now": [5114, 16498, 11061, 1535, 9253, 30276, 38000, 40748, 28851, 32281]}` |
| `Recommender.GetRecommendations` | recommender.py:4-68 | the entry point computes `Recommendations`: the cold start for an empty history, otherwise the answer, with distinct keys and the reserved key first |
| `Trending.DefaultRecommendations` | recommender.py:148-191 | the cold-start loop computes `ColdStart`. Keys are distinct and every list is non-empty and at most 15 long |
| `Trending.CapBuckets` | recommender.py:180-184 | capping keeps every genre and cuts its list to the first 15 ids |
| `Trending.CapEachGet` | recommender.py:181-182 | the same for the specification function |
| `Trending.CapEachDistinct` | recommender.py:180-182 | capping keeps keys distinct |
| `Trending.FilingsAt` | recommender.py:174-177 | on a readable page each item is filed, with its own id, under each of its genres, or under `"Other"` only when its `genres` key is missing; an empty `genres` list files it under no genre |
| `Trending.UnreadableItemFallsBack` | recommender.py:174-191 | an item without `id` or with null `genres` makes the answer exactly the static "Trending Now" list |
| `Trending.ColdStartBucket` | recommender.py:172-184 | on a readable page, genre `g` is a key exactly when some item is filed under it, and holds the first 15 such ids in page order |
| `Trending.ColdStartShape` | recommender.py:172-184 | every genre appears once, with a non-empty list of at most 15 ids, each from an item filed under that genre |
| `Trending.MissingGenresFiledUnderOther` | recommender.py:176-177 | an item without a `genres` key is filed under `"Other"` |
| `Trending.EmptyPageGivesNothing` | recommender.py:171-184 | a page with an empty media list is answered with `{}` |
| `PyDict.PutGet` | recommender.py:125-128 | after `d[k] = v`, reading `k` gives `v` and every other key is unchanged |
| `PyDict.PutAllGet` | recommender.py:65-68 | after a sequence of assignments, each key holds its last assigned value, or its old one |
| `PyDict.PutKeys` | recommender.py:125-128 | `d[k] = v` leaves every key where it stands and appends `k` only when it is new |
| `PyDict.PutAllKeys` | recommender.py:65-68 | after a sequence of assignments, each key stands where it was first assigned |
| `PyDict.PutAllFirst` | recommender.py:65-68 | assignments never move the first key |
| `PyDict.PutAllFresh` | recommender.py:65-68 | assigning only new keys appends them in order |
| `PyDict.SortDescDistinct` | recommender.py:56-57 | sorting a dict's items keeps every key exactly once |
| `PyDict.SortDescGet` | recommender.py:56-57 | `dict(sorted(d.items()))` maps every key to the same value as `d` |
| `PySorted.Prefix` | recommender.py:51 | `xs[:n]` is a prefix, never longer than `n` for `n` ≥ 0, and of length `len(xs) + n` (at least 0) for negative `n` |
| `PySorted.SortDescPermutes` | recommender.py:50 | `sorted` returns a permutation of its input |
| `PySorted.SortDescOrdered` | recommender.py:50 | with `reverse=True`, keys are non-increasing |
| `PySorted.SortDescStable` | recommender.py:50 | items with equal keys keep their input order |
| `PySorted.TopSpec` | recommender.py:50-51 | `sorted(...)[:n]` is as long as `xs[:n]`, ordered, and drawn from the input as a sub-multiset |
| `PySorted.TopBeats` | recommender.py:50-51 | no item left out of `sorted(...)[:n]` has a larger key than an item kept |
| `PySorted.TopStable` | recommender.py:50-51 | the items of `sorted(...)[:n]` with a given key are the first such items of the input, in input order |

## Left out

- The HTTP requests, the GraphQL query texts and JSON decoding (`recommender.py:75-106`, `152-169`). Responses enter the model already decoded, as parameters. A failed request and a response without `data`, `Media` or `Page` are all `None`.
- The `print` calls, which only log.
- Floating-point rounding. Scores are exact reals, so `/ 10000`, `/ 100`, `* 1.5` and score sums are exact.
- `main.py` is not part of this model (web app, database client, environment loading).
- The unused `all_ratings_data` parameter of `get_recommendations`.
- A history of `None`. It behaves like the empty history, and only the empty sequence is modelled.
- Crash paths outside the `try` blocks are excluded by the types:
  - a history row without `rating` or `anime_id`;
  - a candidate whose `genres` is JSON null, which `recommender.py:41` would iterate and crash on. A candidate's genres are either a list or missing, and missing becomes `[]`.
- A trending item whose `id` is JSON null. The source does not raise on it (`recommender.py:175`): it files `None` into its genres and returns it (`177`, `182-184`). Ids are `int` in the model, so such an item is not representable; `TrendingMedia.id == None` stands only for a missing `id` key, which raises.
- Null elements inside an edge list or the trending media list. They raise inside the `try`, which gives `{}` for a seed and the fallback for the cold start. They are not representable in the node datatypes.
- Whether AniList's relation-node `type` carries a relation tag. The membership test on `recommender.py:135` is modelled as written.
- Object aliasing. `all_recommendations` stores the very dict objects of a seed's result and later adds to their `score`. No seed's dict is read again, so the model copies values instead.
- Repeatability of a call with identical inputs and identical service answers. It holds by construction, since every member is a deterministic function of its parameters.
- `Recommender.MergeAdds`: stated for two seeds only. `Aggregation.AggregatedGet` gives the sum for any number of seeds.
