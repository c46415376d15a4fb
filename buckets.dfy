/**
 * Organising the merged candidates by genre: every candidate is filed under
 * each of its genres with its score; each genre keeps its best `max_per_genre`
 * ids by score, genres whose list comes out empty are dropped, and the genres
 * are ordered by how many ids they hold, largest first.
 */
module Bucketing {
  import opened Wrappers
  import opened PyDict
  import opened PySorted
  import opened Grouping
  import opened Similar

  /** `{'id': anime_id, 'score': data['score']}`. */
  type Entry = (int, real)

  /** What the grouping loop files: each candidate's genres with its entry, in dict order. */
  function GenreItems(all: Dict<int, Candidate>): seq<(seq<string>, Entry)>
  {
    seq(|all|, i requires 0 <= i < |all| => (all[i].1.genres, (all[i].0, all[i].1.score)))
  }

  /** The entries genre `g` collects, in dict order. */
  function Tagged(all: Dict<int, Candidate>, g: string): seq<Entry>
  {
    Members(GenreItems(all), g)
  }

  function ByScore(e: Entry): real
  {
    e.1
  }

  /** `[a['id'] for a in sorted(entries, key=score, reverse=True)[:cap]]`. */
  function RankedIds(entries: seq<Entry>, cap: int): seq<int>
  {
    Keys(Prefix(SortDesc(entries, ByScore), cap))
  }

  /** The ranking loop: every genre, in order, with its ranked ids, unless they come out empty. */
  function Ranked(groups: Groups<Entry>, cap: int): Dict<string, seq<int>>
  {
    if groups == [] then []
    else
      var n := |groups| - 1;
      var ids := RankedIds(groups[n].1, cap);
      if ids == [] then Ranked(groups[..n], cap) else Put(Ranked(groups[..n], cap), groups[n].0, ids)
  }

  function ByLength(bucket: (string, seq<int>)): real
  {
    |bucket.1| as real
  }

  /** `dict(sorted(final.items(), key=len, reverse=True))`; the sort keeps every
      key once (`SortDescDistinct`), so building a dict from it changes nothing. */
  function GenreBuckets(all: Dict<int, Candidate>, cap: int): Dict<string, seq<int>>
  {
    SortDesc(Ranked(Group(GenreItems(all)), cap), ByLength)
  }

  /** Every entry filed under `g` is a candidate carrying `g`, with its merged score. */
  lemma {:induction false} TaggedFrom(all: Dict<int, Candidate>, g: string, e: Entry)
    requires e in Tagged(all, g)
    ensures exists i :: 0 <= i < |all| && all[i].0 == e.0 && all[i].1.score == e.1 && g in all[i].1.genres
  {
    MembersFrom(GenreItems(all), g, e);
    var i :| 0 <= i < |all| && GenreItems(all)[i].1 == e && g in GenreItems(all)[i].0;
  }

  /** Every candidate carrying `g` is filed under `g`. */
  lemma {:induction false} TaggedHas(all: Dict<int, Candidate>, i: int, g: string)
    requires 0 <= i < |all| && g in all[i].1.genres
    ensures (all[i].0, all[i].1.score) in Tagged(all, g)
  {
    MembersHas(GenreItems(all), i, g);
  }

  /** Ranking keeps the keys of the groups whose ranked list is not empty, and nothing else. */
  lemma {:induction false} RankedGet(groups: Groups<Entry>, cap: int, g: string)
    requires DistinctKeys(groups)
    ensures Get(Ranked(groups, cap), g)
            == match Get(groups, g)
               case None => None
               case Some(entries) => if RankedIds(entries, cap) == [] then None else Some(RankedIds(entries, cap))
  {
    if groups != [] {
      var n := |groups| - 1;
      var ids := RankedIds(groups[n].1, cap);
      assert groups == groups[..n] + [groups[n]];
      RankedGet(groups[..n], cap, g);
      if ids != [] {
        PutGet(Ranked(groups[..n], cap), groups[n].0, ids, g);
      }
      GetAppend(groups[..n], groups[n], g);
      if g == groups[n].0 {
        forall j | 0 <= j < n ensures groups[..n][j].0 != g {
          assert groups[..n][j] == groups[j];
        }
        GetHasKey(groups[..n], g);
      }
    }
  }

  lemma {:induction false} RankedDistinct(groups: Groups<Entry>, cap: int)
    ensures DistinctKeys(Ranked(groups, cap))
  {
    if groups != [] {
      var n := |groups| - 1;
      RankedDistinct(groups[..n], cap);
      var ids := RankedIds(groups[n].1, cap);
      if ids != [] {
        PutDistinct(Ranked(groups[..n], cap), groups[n].0, ids);
      }
    }
  }

  /** Genre `g` is a key of the answer exactly when its ranked list is not empty,
      and then holds that list. */
  lemma {:induction false} BucketGet(all: Dict<int, Candidate>, cap: int, g: string)
    ensures DistinctKeys(GenreBuckets(all, cap))
    ensures Get(GenreBuckets(all, cap), g)
            == if RankedIds(Tagged(all, g), cap) == [] then None else Some(RankedIds(Tagged(all, g), cap))
  {
    var groups := Group(GenreItems(all));
    GroupShape(GenreItems(all));
    GroupGet(GenreItems(all), g);
    RankedGet(groups, cap, g);
    RankedDistinct(groups, cap);
    SortDescDistinct(Ranked(groups, cap), ByLength);
    SortDescGet(Ranked(groups, cap), ByLength, g);
  }

  /** Each entry kept for `g` is a candidate carrying `g`, listed with its merged score. */
  lemma {:induction false} TopEntryFrom(all: Dict<int, Candidate>, g: string, top: seq<Entry>, a: int)
    requires DistinctKeys(all)
    requires multiset(top) <= multiset(Tagged(all, g))
    requires 0 <= a < |top|
    ensures ScoreOf(all, top[a].0) == top[a].1
    ensures exists i :: 0 <= i < |all| && all[i].0 == top[a].0 && g in all[i].1.genres
  {
    assert top[a] in multiset(Tagged(all, g));
    TaggedFrom(all, g, top[a]);
    var i :| 0 <= i < |all| && all[i].0 == top[a].0 && all[i].1.score == top[a].1 && g in all[i].1.genres;
    GetAt(all, i);
  }

  /** A genre's list is non-empty, as long as the slice `[:max_per_genre]` of what
      the genre collected (so never longer than `max_per_genre`), and holds
      candidates carrying the genre, best merged score first. */
  lemma {:induction false} BucketSpec(all: Dict<int, Candidate>, cap: int, g: string, ids: seq<int>)
    requires DistinctKeys(all)
    requires Get(GenreBuckets(all, cap), g) == Some(ids)
    ensures ids != [] && |ids| == |Prefix(Tagged(all, g), cap)| && (0 <= cap ==> |ids| <= cap)
    ensures forall id :: id in ids ==> exists i :: 0 <= i < |all| && all[i].0 == id && g in all[i].1.genres
    ensures forall a, b :: 0 <= a < b < |ids| ==> ScoreOf(all, ids[a]) >= ScoreOf(all, ids[b])
  {
    var entries := Tagged(all, g);
    BucketGet(all, cap, g);
    var sorted := SortDesc(entries, ByScore);
    var top := Prefix(sorted, cap);
    SortDescPermutes(entries, ByScore);
    SortDescOrdered(entries, ByScore);
    PrefixLength(sorted, entries, cap);
    assert top == sorted[..|top|];
    PrefixIncluded(sorted, |top|);
    assert ids == Keys(top);
    forall id | id in ids
      ensures exists i :: 0 <= i < |all| && all[i].0 == id && g in all[i].1.genres
    {
      var a :| 0 <= a < |ids| && ids[a] == id;
      TopEntryFrom(all, g, top, a);
    }
    forall a, b | 0 <= a < b < |ids| ensures ScoreOf(all, ids[a]) >= ScoreOf(all, ids[b]) {
      TopEntryFrom(all, g, top, a);
      TopEntryFrom(all, g, top, b);
      assert ByScore(sorted[a]) >= ByScore(sorted[b]);
    }
  }

  /** No candidate of genre `g` that was left out of its list scores higher than one that was kept. */
  lemma {:induction false} BucketDominates(all: Dict<int, Candidate>, cap: int, g: string, ids: seq<int>)
    requires DistinctKeys(all)
    requires Get(GenreBuckets(all, cap), g) == Some(ids)
    ensures forall i, id :: 0 <= i < |all| && g in all[i].1.genres && all[i].0 !in ids && id in ids
                            ==> all[i].1.score <= ScoreOf(all, id)
  {
    var entries := Tagged(all, g);
    BucketGet(all, cap, g);
    TopSpec(entries, ByScore, cap);
    var top := Prefix(SortDesc(entries, ByScore), cap);
    assert ids == Keys(top);
    forall i, id | 0 <= i < |all| && g in all[i].1.genres && all[i].0 !in ids && id in ids
      ensures all[i].1.score <= ScoreOf(all, id)
    {
      var e := (all[i].0, all[i].1.score);
      TaggedHas(all, i, g);
      forall a | 0 <= a < |top| ensures top[a] != e {
        assert ids[a] == top[a].0;
      }
      assert e in multiset(entries) - multiset(top);
      var a :| 0 <= a < |ids| && ids[a] == id;
      TopEntryFrom(all, g, top, a);
      TopBeats(entries, ByScore, cap, e, top[a]);
    }
  }

  /** Ties inside a genre: of the entries of `g` that share the score `v`, the ones
      kept are the first ones in merged-map order, still in that order. */
  lemma {:induction false} BucketTies(all: Dict<int, Candidate>, cap: int, g: string, v: real)
    ensures Keys(Prefix(SortDesc(Tagged(all, g), ByScore), cap)) == RankedIds(Tagged(all, g), cap)
    ensures var tied := WithKey(Prefix(SortDesc(Tagged(all, g), ByScore), cap), ByScore, v);
            |tied| <= |WithKey(Tagged(all, g), ByScore, v)| && tied == WithKey(Tagged(all, g), ByScore, v)[..|tied|]
  {
    TopStable(Tagged(all, g), ByScore, cap, v);
  }

  /** With a positive `max_per_genre`, a genre is a key exactly when some candidate carries it. */
  lemma {:induction false} BucketPresence(all: Dict<int, Candidate>, cap: int, g: string)
    requires 1 <= cap
    ensures Get(GenreBuckets(all, cap), g).Some? <==> exists i :: 0 <= i < |all| && g in all[i].1.genres
  {
    var entries := Tagged(all, g);
    BucketGet(all, cap, g);
    TopSpec(entries, ByScore, cap);
    if exists i :: 0 <= i < |all| && g in all[i].1.genres {
      var i :| 0 <= i < |all| && g in all[i].1.genres;
      TaggedHas(all, i, g);
    }
    if entries != [] {
      TaggedFrom(all, g, entries[0]);
    }
  }

  /** The genres in the order the grouping loop first meets them. */
  function Encounter(all: Dict<int, Candidate>): seq<string>
  {
    FirstOccurrences(AllGenres(GenreItems(all)), {})
  }

  /** The genres of `gs`, in the order of `gs`, whose ranked list is kept and holds `v` ids. */
  function OfLength(all: Dict<int, Candidate>, cap: int, gs: seq<string>, v: real): seq<string>
  {
    if gs == [] then []
    else
      var n := |gs| - 1;
      var ids := RankedIds(Tagged(all, gs[n]), cap);
      OfLength(all, cap, gs[..n], v) + (if ids != [] && |ids| as real == v then [gs[n]] else [])
  }

  /** The last group's genre is not yet a key when ranking reaches it. */
  lemma {:induction false} RankedFresh(groups: Groups<Entry>, cap: int)
    requires DistinctKeys(groups) && groups != []
    ensures !HasKey(Ranked(groups[..|groups| - 1], cap), groups[|groups| - 1].0)
  {
    var n := |groups| - 1;
    var k := groups[n].0;
    forall j | 0 <= j < n ensures groups[..n][j].0 != k {
      assert groups[..n][j] == groups[j];
    }
    GetHasKey(groups[..n], k);
    RankedGet(groups[..n], cap, k);
    GetHasKey(Ranked(groups[..n], cap), k);
  }

  /** Ranking the last group adds its genre, if its list is kept, after the genres before it. */
  lemma {:induction false} RankedStep(groups: Groups<Entry>, cap: int, v: real)
    requires DistinctKeys(groups) && groups != []
    ensures var n := |groups| - 1;
            var ids := RankedIds(groups[n].1, cap);
            Keys(WithKey(Ranked(groups, cap), ByLength, v))
            == Keys(WithKey(Ranked(groups[..n], cap), ByLength, v)) + (if ids != [] && |ids| as real == v then [groups[n].0] else [])
  {
    var n := |groups| - 1;
    var k := groups[n].0;
    var ids := RankedIds(groups[n].1, cap);
    var before := Ranked(groups[..n], cap);
    var w := WithKey(before, ByLength, v);
    if ids == [] {
      assert w + [] == w;
    } else {
      RankedFresh(groups, cap);
      PutNew(before, k, ids);
      WithKeyAppend(before, (k, ids), ByLength, v);
      var extra: Dict<string, seq<int>> := if |ids| as real == v then [(k, ids)] else [];
      assert ByLength((k, ids)) == |ids| as real;
      assert WithKey(Ranked(groups, cap), ByLength, v) == w + extra;
      KeysConcat(w, extra);
    }
  }

  /** The genres of `groups`, in order, whose ranked list is kept. */
  function Surviving(groups: Groups<Entry>, cap: int): seq<string>
  {
    if groups == [] then []
    else
      var n := |groups| - 1;
      Surviving(groups[..n], cap) + (if RankedIds(groups[n].1, cap) != [] then [groups[n].0] else [])
  }

  /** The ranking loop keeps the surviving genres in the order of the grouped dict. */
  lemma {:induction false} RankedKeys(groups: Groups<Entry>, cap: int)
    requires DistinctKeys(groups)
    ensures Keys(Ranked(groups, cap)) == Surviving(groups, cap)
  {
    if groups != [] {
      var n := |groups| - 1;
      var k := groups[n].0;
      var ids := RankedIds(groups[n].1, cap);
      var before := Ranked(groups[..n], cap);
      assert DistinctKeys(groups[..n]);
      RankedKeys(groups[..n], cap);
      if ids != [] {
        RankedFresh(groups, cap);
        KeysHasKey(before, k);
        PutKeys(before, k, ids);
      } else {
        assert Surviving(groups[..n], cap) + [] == Surviving(groups[..n], cap);
      }
    }
  }

  /** The genres of `groups`, in order, whose ranked list is kept and holds `v` ids. */
  function KeptOfLength(groups: Groups<Entry>, cap: int, v: real): seq<string>
  {
    if groups == [] then []
    else
      var n := |groups| - 1;
      var ids := RankedIds(groups[n].1, cap);
      KeptOfLength(groups[..n], cap, v) + (if ids != [] && |ids| as real == v then [groups[n].0] else [])
  }

  /** Ranking keeps the genres in the order of the groups: those with `v` ids
      come out in group order. */
  lemma {:induction false} RankedTies(groups: Groups<Entry>, cap: int, v: real)
    requires DistinctKeys(groups)
    ensures Keys(WithKey(Ranked(groups, cap), ByLength, v)) == KeptOfLength(groups, cap, v)
  {
    if groups != [] {
      var n := |groups| - 1;
      assert DistinctKeys(groups[..n]);
      RankedTies(groups[..n], cap, v);
      RankedStep(groups, cap, v);
    }
  }

  /** When every group holds what its genre collects, filtering the groups is
      filtering their genres by the ranked list of what each collects. */
  lemma {:induction false} KeptIsOfLength(all: Dict<int, Candidate>, groups: Groups<Entry>, cap: int, v: real)
    requires forall i :: 0 <= i < |groups| ==> groups[i].1 == Tagged(all, groups[i].0)
    ensures KeptOfLength(groups, cap, v) == OfLength(all, cap, Keys(groups), v)
  {
    if groups != [] {
      var n := |groups| - 1;
      assert forall i :: 0 <= i < n ==> groups[..n][i] == groups[i];
      KeptIsOfLength(all, groups[..n], cap, v);
      assert Keys(groups)[..n] == Keys(groups[..n]);
    }
  }

  /** Genres come out with the longest lists first; genres with lists of equal
      length come out in the order in which the grouping loop first met them. */
  lemma {:induction false} GenreOrder(all: Dict<int, Candidate>, cap: int, v: real)
    ensures SortedDesc(GenreBuckets(all, cap), ByLength)
    ensures WithKey(GenreBuckets(all, cap), ByLength, v) == WithKey(Ranked(Group(GenreItems(all)), cap), ByLength, v)
    ensures Keys(WithKey(GenreBuckets(all, cap), ByLength, v)) == OfLength(all, cap, Encounter(all), v)
  {
    var groups := Group(GenreItems(all));
    SortDescOrdered(Ranked(groups, cap), ByLength);
    SortDescStable(Ranked(groups, cap), ByLength, v);
    GroupShape(GenreItems(all));
    GroupKeys(GenreItems(all));
    forall i | 0 <= i < |groups| ensures groups[i].1 == Tagged(all, groups[i].0) {
      GetAt(groups, i);
      GroupGet(GenreItems(all), groups[i].0);
    }
    RankedTies(groups, cap, v);
    KeptIsOfLength(all, groups, cap, v);
  }

  /** The grouping loop over the merged candidates. */
  method GroupByGenre(all: Dict<int, Candidate>) returns (genreRecommendations: Groups<Entry>)
    ensures genreRecommendations == Group(GenreItems(all))
    ensures forall g :: ListAt(genreRecommendations, g) == Tagged(all, g)
  {
    ghost var items := GenreItems(all);
    genreRecommendations := [];
    for i := 0 to |all|
      invariant genreRecommendations == Group(items[..i])
    {
      assert items[..i + 1][..i] == items[..i];
      var (animeId, data) := all[i];
      genreRecommendations := AppendToEach(genreRecommendations, data.genres, (animeId, data.score));
    }
    assert items[..|all|] == items;
    forall g {
      GroupAt(items, g);
    }
  }

  /** The ranking loop over the genre groups. */
  method RankAndCap(genreRecommendations: Groups<Entry>, cap: int) returns (final: Dict<string, seq<int>>)
    ensures final == Ranked(genreRecommendations, cap)
  {
    final := [];
    for i := 0 to |genreRecommendations|
      invariant final == Ranked(genreRecommendations[..i], cap)
    {
      assert genreRecommendations[..i + 1][..i] == genreRecommendations[..i];
      var (genre, animeList) := genreRecommendations[i];
      var sortedAnime := SortDesc(animeList, ByScore);
      var animeIds := Keys(Prefix(sortedAnime, cap));
      if animeIds != [] {
        final := Put(final, genre, animeIds);
      }
    }
    assert genreRecommendations[..|genreRecommendations|] == genreRecommendations;
  }
}
