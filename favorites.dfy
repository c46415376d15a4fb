/**
 * Choosing the seeds of a recommendation run from the user's rating history:
 * the anime rated 7 or more, in history order; if there are none, the 5
 * best-rated, best first with ties in history order. Only the first 8 are used.
 */
module FavoriteSelection {
  import opened PySorted

  /** One row of the user's rating history. */
  datatype Rating = Rating(animeId: int, rating: real)

  const LikedThreshold: real := 7.0
  const FallbackCount: int := 5
  const SeedCount: int := 8

  function ByRating(r: Rating): real
  {
    r.rating
  }

  /** `[r for r in ratings if r["rating"] >= 7]`. */
  function Liked(ratings: seq<Rating>): seq<Rating>
  {
    if ratings == [] then []
    else
      var n := |ratings| - 1;
      Liked(ratings[..n]) + (if ratings[n].rating >= LikedThreshold then [ratings[n]] else [])
  }

  function Favorites(ratings: seq<Rating>): seq<Rating>
  {
    var liked := Liked(ratings);
    if liked != [] then liked else Prefix(SortDesc(ratings, ByRating), FallbackCount)
  }

  /** `favorites[:8]`. */
  function Seeds(ratings: seq<Rating>): (seeds: seq<Rating>)
    ensures |seeds| == if |Favorites(ratings)| < 8 then |Favorites(ratings)| else 8
    ensures seeds == Favorites(ratings)[..|seeds|]
  {
    Prefix(Favorites(ratings), SeedCount)
  }

  /** A rating is liked exactly when it is in the history and is at least 7. */
  lemma {:induction false} LikedMembers(ratings: seq<Rating>, r: Rating)
    ensures r in Liked(ratings) <==> r in ratings && r.rating >= 7.0
  {
    if ratings != [] {
      var n := |ratings| - 1;
      LikedMembers(ratings[..n], r);
      assert ratings == ratings[..n] + [ratings[n]];
    }
  }

  lemma {:induction false} NoneLiked(ratings: seq<Rating>)
    requires forall i :: 0 <= i < |ratings| ==> ratings[i].rating < 7.0
    ensures Liked(ratings) == []
  {
    if ratings != [] {
      NoneLiked(ratings[..|ratings| - 1]);
    }
  }

  /** The filter keeps history order: filtering a concatenation concatenates the filtered parts. */
  lemma {:induction false} LikedConcat(a: seq<Rating>, b: seq<Rating>)
    ensures Liked(a + b) == Liked(a) + Liked(b)
  {
    if b != [] {
      var n := |b| - 1;
      assert (a + b)[..|a + b| - 1] == a + b[..n];
      LikedConcat(a, b[..n]);
    } else {
      assert a + b == a;
    }
  }

  /** With at least one rating of 7 or more, the favorites are exactly the liked ratings. */
  lemma {:induction false} FavoritesWhenSomeLiked(ratings: seq<Rating>, i: int)
    requires 0 <= i < |ratings| && ratings[i].rating >= 7.0
    ensures Favorites(ratings) == Liked(ratings)
    ensures forall r :: r in Favorites(ratings) <==> r in ratings && r.rating >= 7.0
  {
    LikedMembers(ratings, ratings[i]);
    forall r {
      LikedMembers(ratings, r);
    }
  }

  /** With no rating of 7 or more, the favorites are the first min(5, n) of the
      history ordered by non-increasing rating, ties kept in history order. */
  lemma {:induction false} FavoritesWhenNoneLiked(ratings: seq<Rating>)
    requires forall i :: 0 <= i < |ratings| ==> ratings[i].rating < 7.0
    ensures var favorites := Favorites(ratings);
            var sorted := SortDesc(ratings, ByRating);
            && |sorted| == |ratings|
            && |favorites| == (if |ratings| < 5 then |ratings| else 5)
            && favorites == sorted[..|favorites|]
            && SortedDesc(sorted, ByRating)
            && multiset(sorted) == multiset(ratings)
            && (forall v :: WithKey(sorted, ByRating, v) == WithKey(ratings, ByRating, v))
  {
    NoneLiked(ratings);
    SortDescPermutes(ratings, ByRating);
    SortDescOrdered(ratings, ByRating);
    forall v {
      SortDescStable(ratings, ByRating, v);
    }
  }

  /** With no rating of 7 or more, no rating left out of the favorites is higher
      than a favorite's. */
  lemma {:induction false} FallbackDominates(ratings: seq<Rating>)
    requires forall i :: 0 <= i < |ratings| ==> ratings[i].rating < 7.0
    ensures forall r, f :: r in multiset(ratings) - multiset(Favorites(ratings)) && f in Favorites(ratings)
                           ==> r.rating <= f.rating
  {
    NoneLiked(ratings);
    forall r, f | r in multiset(ratings) - multiset(Favorites(ratings)) && f in Favorites(ratings)
      ensures r.rating <= f.rating
    {
      TopBeats(ratings, ByRating, FallbackCount, r, f);
    }
  }

  /** A worked history with liked ratings: they are kept, in history order. */
  lemma {:induction false} FavoritesExampleLiked()
    ensures Favorites([Rating(1, 9.0), Rating(2, 5.0), Rating(3, 8.0)]) == [Rating(1, 9.0), Rating(3, 8.0)]
  {
    var some := [Rating(1, 9.0), Rating(2, 5.0), Rating(3, 8.0)];
    assert some[..2] == [Rating(1, 9.0), Rating(2, 5.0)];
    assert some[..2][..1] == [Rating(1, 9.0)];
    assert [Rating(1, 9.0)][..0] == [];
    assert Liked([Rating(1, 9.0)]) == [Rating(1, 9.0)];
    assert Liked(some[..2]) == [Rating(1, 9.0)];
  }

  /** The last four ratings of the history below, sorted. */
  lemma {:induction false} SortedTailExample()
    ensures SortDesc([Rating(3, 1.0), Rating(4, 5.0), Rating(5, 2.0), Rating(6, 4.0)], ByRating)
            == [Rating(4, 5.0), Rating(6, 4.0), Rating(5, 2.0), Rating(3, 1.0)]
  {
    var r3, r4, r5, r6 := Rating(3, 1.0), Rating(4, 5.0), Rating(5, 2.0), Rating(6, 4.0);
    assert [r6][1..] == [] && [r5][1..] == [];
    assert [r5, r6][1..] == [r6] && [r4, r5, r6][1..] == [r5, r6] && [r3, r4, r5, r6][1..] == [r4, r5, r6];
    assert SortDesc([r6], ByRating) == [r6];
    assert InsertDesc(r5, [r6], ByRating) == [r6] + InsertDesc(r5, [], ByRating);
    assert SortDesc([r5, r6], ByRating) == [r6, r5];
    assert SortDesc([r4, r5, r6], ByRating) == [r4, r6, r5];
    assert [r4, r6, r5][1..] == [r6, r5] && [r6, r5][1..] == [r5];
    assert InsertDesc(r3, [r5], ByRating) == [r5, r3];
    assert InsertDesc(r3, [r6, r5], ByRating) == [r6, r5, r3];
    assert InsertDesc(r3, [r4, r6, r5], ByRating) == [r4, r6, r5, r3];
  }

  /** The last five ratings of the history below, sorted. */
  lemma {:induction false} SortedRestExample()
    ensures SortDesc([Rating(2, 6.0), Rating(3, 1.0), Rating(4, 5.0), Rating(5, 2.0), Rating(6, 4.0)], ByRating)
            == [Rating(2, 6.0), Rating(4, 5.0), Rating(6, 4.0), Rating(5, 2.0), Rating(3, 1.0)]
  {
    SortedTailExample();
    assert [Rating(2, 6.0), Rating(3, 1.0), Rating(4, 5.0), Rating(5, 2.0), Rating(6, 4.0)][1..]
        == [Rating(3, 1.0), Rating(4, 5.0), Rating(5, 2.0), Rating(6, 4.0)];
  }

  /** The history below, sorted. */
  lemma {:induction false} SortedExample()
    ensures SortDesc([Rating(1, 3.0), Rating(2, 6.0), Rating(3, 1.0), Rating(4, 5.0), Rating(5, 2.0), Rating(6, 4.0)], ByRating)
            == [Rating(2, 6.0), Rating(4, 5.0), Rating(6, 4.0), Rating(1, 3.0), Rating(5, 2.0), Rating(3, 1.0)]
  {
    var r1, r2, r3, r4, r5, r6 := Rating(1, 3.0), Rating(2, 6.0), Rating(3, 1.0), Rating(4, 5.0), Rating(5, 2.0), Rating(6, 4.0);
    SortedRestExample();
    assert [r1, r2, r3, r4, r5, r6][1..] == [r2, r3, r4, r5, r6];
    var t := [r2, r4, r6, r5, r3];
    assert t[1..] == [r4, r6, r5, r3] && t[1..][1..] == [r6, r5, r3] && t[1..][1..][1..] == [r5, r3];
    assert InsertDesc(r1, [r5, r3], ByRating) == [r1, r5, r3];
    assert InsertDesc(r1, [r6, r5, r3], ByRating) == [r6, r1, r5, r3];
    assert InsertDesc(r1, [r4, r6, r5, r3], ByRating) == [r4, r6, r1, r5, r3];
  }

  /** A worked history without liked ratings: the five best, best first. */
  lemma {:induction false} FavoritesExampleNoneLiked()
    ensures Favorites([Rating(1, 3.0), Rating(2, 6.0), Rating(3, 1.0), Rating(4, 5.0), Rating(5, 2.0), Rating(6, 4.0)])
            == [Rating(2, 6.0), Rating(4, 5.0), Rating(6, 4.0), Rating(1, 3.0), Rating(5, 2.0)]
  {
    NoneLiked([Rating(1, 3.0), Rating(2, 6.0), Rating(3, 1.0), Rating(4, 5.0), Rating(5, 2.0), Rating(6, 4.0)]);
    SortedExample();
  }
}
