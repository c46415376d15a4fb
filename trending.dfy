/**
 * The cold-start path, `get_default_recommendations`: bucket a page of
 * trending anime by genre, keep page order inside each bucket and at most 15
 * ids per bucket; if the request or the reading of the page raises, answer
 * with a fixed "Trending Now" list.
 */
module Trending {
  import opened Wrappers
  import opened PyDict
  import opened PySorted
  import opened Grouping

  /** One entry of `data['data']['Page']['media']`: `id` is `None` when the key is
      missing (a KeyError); `genres` may be missing, null (iterating it raises) or a list. */
  datatype TrendingMedia = TrendingMedia(id: Option<int>, genres: Field<seq<string>>)

  const BucketCap: int := 15
  const FallbackGenre: string := "Trending Now"
  const FallbackIds: seq<int> := [5114, 16498, 11061, 1535, 9253, 30276, 38000, 40748, 28851, 32281]

  /** The static answer used when the trending page cannot be read. */
  function Fallback(): Dict<string, seq<int>>
  {
    [(FallbackGenre, FallbackIds)]
  }

  /** `anime.get('genres', ['Other'])` for an item whose genres are not null. */
  function FiledGenres(item: TrendingMedia): seq<string>
    requires !item.genres.Null?
  {
    if item.genres.Absent? then ["Other"] else item.genres.value
  }

  /** The (genres, id) pair the loop files one item under, or `None` if reading the item raises. */
  function Filing(item: TrendingMedia): Option<(seq<string>, int)>
  {
    if item.id.None? || item.genres.Null? then None
    else Some((FiledGenres(item), item.id.value))
  }

  /** The filings of all items in page order, or `None` if reading any of them raises. */
  function Filings(items: seq<TrendingMedia>): Option<seq<(seq<string>, int)>>
  {
    if items == [] then Some([])
    else
      var n := |items| - 1;
      match (Filings(items[..n]), Filing(items[n]))
      case (Some(filed), Some(f)) => Some(filed + [f])
      case _ => None
  }

  /** `for genre, ids in genre_map.items(): result[genre] = ids[:cap]`. */
  function CapEach(groups: Groups<int>, cap: int): Dict<string, seq<int>>
  {
    if groups == [] then []
    else
      var n := |groups| - 1;
      Put(CapEach(groups[..n], cap), groups[n].0, Prefix(groups[n].1, cap))
  }

  /** The answer for a trending page; `None` stands for a failed request or a
      response without `data`, with a null or falsy `Page`, or without `media`. */
  function ColdStart(page: Option<seq<TrendingMedia>>): Dict<string, seq<int>>
  {
    match page
    case None => Fallback()
    case Some(items) =>
      match Filings(items)
      case None => Fallback()
      case Some(filed) => CapEach(Group(filed), BucketCap)
  }

  lemma {:induction false} FilingsAbsorb(items: seq<TrendingMedia>, i: int)
    requires 0 <= i <= |items|
    requires Filings(items[..i]).None?
    ensures Filings(items).None?
  {
    if i < |items| {
      var n := |items| - 1;
      assert items[..n][..i] == items[..i];
      FilingsAbsorb(items[..n], i);
    } else {
      assert items[..i] == items;
    }
  }

  lemma {:induction false} FilingsLength(items: seq<TrendingMedia>)
    requires Filings(items).Some?
    ensures |Filings(items).value| == |items|
  {
    if items != [] {
      FilingsLength(items[..|items| - 1]);
    }
  }

  /** When the page reads cleanly, item `i` is filed with its own id under its
      own genres, or under "Other" when its `genres` key is missing; an empty
      list files it under no genre. */
  lemma {:induction false} FilingsAt(items: seq<TrendingMedia>, i: int)
    requires Filings(items).Some?
    requires 0 <= i < |items|
    ensures |Filings(items).value| == |items|
    ensures items[i].id.Some? && !items[i].genres.Null?
    ensures Filings(items).value[i] == (FiledGenres(items[i]), items[i].id.value)
  {
    var n := |items| - 1;
    if i < n {
      assert items[..n][i] == items[i];
      FilingsAt(items[..n], i);
    } else if n > 0 {
      FilingsAt(items[..n], 0);
    }
  }

  /** Capping keeps the keys and cuts every list to its first `cap` ids. */
  lemma {:induction false} CapEachGet(groups: Groups<int>, cap: int, g: string)
    requires DistinctKeys(groups)
    ensures Get(CapEach(groups, cap), g)
            == match Get(groups, g) case None => None case Some(ids) => Some(Prefix(ids, cap))
  {
    if groups != [] {
      var n := |groups| - 1;
      assert groups == groups[..n] + [groups[n]];
      CapEachGet(groups[..n], cap, g);
      PutGet(CapEach(groups[..n], cap), groups[n].0, Prefix(groups[n].1, cap), g);
      GetAppend(groups[..n], groups[n], g);
      if g == groups[n].0 {
        forall j | 0 <= j < n ensures groups[..n][j].0 != g {
          assert groups[..n][j] == groups[j];
        }
        GetHasKey(groups[..n], g);
      }
    }
  }

  lemma {:induction false} CapEachDistinct(groups: Groups<int>, cap: int)
    ensures DistinctKeys(CapEach(groups, cap))
  {
    if groups != [] {
      var n := |groups| - 1;
      CapEachDistinct(groups[..n], cap);
      PutDistinct(CapEach(groups[..n], cap), groups[n].0, Prefix(groups[n].1, cap));
    }
  }

  /** If any trending item lacks an `id` or has null genres, the answer is exactly the fallback. */
  lemma {:induction false} UnreadableItemFallsBack(items: seq<TrendingMedia>, i: int)
    requires 0 <= i < |items|
    requires items[i].id.None? || items[i].genres.Null?
    ensures ColdStart(Some(items)) == [("Trending Now", [5114, 16498, 11061, 1535, 9253, 30276, 38000, 40748, 28851, 32281])]
  {
    assert items[..i + 1][..i] == items[..i];
    FilingsAbsorb(items, i + 1);
  }

  /** A page whose media list is empty is answered with an empty dict, not with the fallback. */
  lemma {:induction false} EmptyPageGivesNothing()
    ensures ColdStart(Some([])) == []
  {
  }

  /** On a readable page, genre `g` is a key exactly when some item is filed under
      it, and holds the first 15 ids filed under it, in page order. */
  lemma {:induction false} ColdStartBucket(items: seq<TrendingMedia>, g: string)
    requires Filings(items).Some?
    ensures var filed := Filings(items).value;
            Get(ColdStart(Some(items)), g)
            == if Members(filed, g) == [] then None else Some(Prefix(Members(filed, g), 15))
  {
    var filed := Filings(items).value;
    GroupShape(filed);
    GroupGet(filed, g);
    CapEachGet(Group(filed), BucketCap, g);
  }

  /** On a readable page every genre appears once, its list is non-empty, holds at
      most 15 ids, and every id comes from an item filed under that genre. */
  lemma {:induction false} ColdStartShape(items: seq<TrendingMedia>)
    requires Filings(items).Some?
    ensures var result := ColdStart(Some(items));
            DistinctKeys(result)
            && forall i :: 0 <= i < |result| ==>
                 result[i].1 != [] && |result[i].1| <= 15
                 && forall id :: id in result[i].1 ==>
                      exists j :: 0 <= j < |items| && items[j].id == Some(id) && !items[j].genres.Null? && result[i].0 in FiledGenres(items[j])
  {
    var filed := Filings(items).value;
    var result := ColdStart(Some(items));
    CapEachDistinct(Group(filed), BucketCap);
    forall i | 0 <= i < |result|
      ensures result[i].1 != [] && |result[i].1| <= 15
      ensures forall id :: id in result[i].1 ==>
                exists j :: 0 <= j < |items| && items[j].id == Some(id) && !items[j].genres.Null? && result[i].0 in FiledGenres(items[j])
    {
      var g := result[i].0;
      GetAt(result, i);
      ColdStartBucket(items, g);
      var members := Members(filed, g);
      forall id | id in result[i].1
        ensures exists j :: 0 <= j < |items| && items[j].id == Some(id) && !items[j].genres.Null? && g in FiledGenres(items[j])
      {
        assert id in members;
        MembersFrom(filed, g, id);
        var j :| 0 <= j < |filed| && filed[j].1 == id && g in filed[j].0;
        FilingsLength(items);
        FilingsAt(items, j);
      }
    }
  }

  /** An item without a `genres` key is filed under "Other". */
  lemma {:induction false} MissingGenresFiledUnderOther(items: seq<TrendingMedia>, i: int)
    requires Filings(items).Some?
    requires 0 <= i < |items| && items[i].genres.Absent?
    ensures items[i].id.Some? && items[i].id.value in Members(Filings(items).value, "Other")
  {
    FilingsAt(items, i);
    var filed := Filings(items).value;
    MembersHas(filed, i, "Other");
  }

  /** `for genre, ids in genre_map.items(): result[genre] = ids[:cap]`. */
  method CapBuckets(genreMap: Groups<int>, cap: int) returns (result: Dict<string, seq<int>>)
    requires DistinctKeys(genreMap)
    ensures result == CapEach(genreMap, cap)
    ensures forall g :: Get(result, g) == match Get(genreMap, g) case None => None case Some(ids) => Some(Prefix(ids, cap))
  {
    result := [];
    for i := 0 to |genreMap|
      invariant result == CapEach(genreMap[..i], cap)
    {
      assert genreMap[..i + 1][..i] == genreMap[..i];
      result := Put(result, genreMap[i].0, Prefix(genreMap[i].1, cap));
    }
    assert genreMap[..|genreMap|] == genreMap;
    forall g {
      CapEachGet(genreMap, cap, g);
    }
  }

  method DefaultRecommendations(page: Option<seq<TrendingMedia>>) returns (result: Dict<string, seq<int>>)
    ensures result == ColdStart(page)
    ensures DistinctKeys(result)
    ensures forall i :: 0 <= i < |result| ==> result[i].1 != [] && |result[i].1| <= 15
  {
    if page.None? {
      return Fallback();
    }
    var items := page.value;
    var genreMap: Groups<int> := [];
    ghost var filed: seq<(seq<string>, int)> := [];
    for i := 0 to |items|
      invariant Filings(items[..i]) == Some(filed)
      invariant genreMap == Group(filed)
    {
      assert items[..i + 1][..i] == items[..i];
      var item := items[i];
      if item.id.None? || item.genres.Null? {
        FilingsAbsorb(items, i + 1);
        return Fallback();
      }
      var animeId := item.id.value;
      var genres := if item.genres.Absent? then ["Other"] else item.genres.value;
      genreMap := AppendToEach(genreMap, genres, animeId);
      assert (filed + [(genres, animeId)])[..|filed|] == filed;
      filed := filed + [(genres, animeId)];
    }
    assert items[..|items|] == items;
    GroupShape(filed);
    result := CapBuckets(genreMap, BucketCap);
    ColdStartShape(items);
  }
}
