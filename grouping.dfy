/**
 * Grouping by genre with a `defaultdict(list)`: `groups[g].append(x)` for
 * every genre `g` of every item, in iteration order.
 */
module Grouping {
  import opened Wrappers
  import opened PyDict

  type Groups<V> = Dict<string, seq<V>>

  /** `groups[g]`, where a missing key reads as the empty list. */
  function ListAt<V>(groups: Groups<V>, g: string): seq<V>
  {
    match Get(groups, g)
    case None => []
    case Some(xs) => xs
  }

  /** `groups[g].append(x)`: a missing key is inserted at the end. */
  function Append<V>(groups: Groups<V>, g: string, x: V): Groups<V>
  {
    Put(groups, g, ListAt(groups, g) + [x])
  }

  /** `for g in gs: groups[g].append(x)`. */
  function AppendEach<V>(groups: Groups<V>, gs: seq<string>, x: V): Groups<V>
  {
    if gs == [] then groups
    else
      var n := |gs| - 1;
      Append(AppendEach(groups, gs[..n], x), gs[n], x)
  }

  /** `for gs, x in items: for g in gs: groups[g].append(x)`, from an empty defaultdict. */
  function Group<V>(items: seq<(seq<string>, V)>): Groups<V>
  {
    if items == [] then []
    else
      var n := |items| - 1;
      AppendEach(Group(items[..n]), items[n].0, items[n].1)
  }

  /** One copy of `x` for every occurrence of `g` in `gs`. */
  function Occurrences<V>(gs: seq<string>, g: string, x: V): seq<V>
  {
    if gs == [] then []
    else
      var n := |gs| - 1;
      Occurrences(gs[..n], g, x) + (if gs[n] == g then [x] else [])
  }

  /** What genre `g` collects: the payloads of the items that carry `g`, in item order
      (an item listing `g` twice contributes twice). */
  function Members<V>(items: seq<(seq<string>, V)>, g: string): seq<V>
  {
    if items == [] then []
    else
      var n := |items| - 1;
      Members(items[..n], g) + Occurrences(items[n].0, g, items[n].1)
  }

  ghost predicate NonEmptyLists<V>(groups: Groups<V>)
  {
    forall e :: e in groups ==> e.1 != []
  }

  lemma {:induction false} AppendAt<V>(groups: Groups<V>, g: string, x: V, h: string)
    ensures ListAt(Append(groups, g, x), h) == ListAt(groups, h) + (if g == h then [x] else [])
  {
    PutGet(groups, g, ListAt(groups, g) + [x], h);
  }

  lemma {:induction false} AppendShape<V>(groups: Groups<V>, g: string, x: V)
    requires DistinctKeys(groups) && NonEmptyLists(groups)
    ensures DistinctKeys(Append(groups, g, x)) && NonEmptyLists(Append(groups, g, x))
  {
    PutDistinct(groups, g, ListAt(groups, g) + [x]);
    PutItems(groups, g, ListAt(groups, g) + [x]);
  }

  lemma {:induction false} AppendEachAt<V>(groups: Groups<V>, gs: seq<string>, x: V, h: string)
    ensures ListAt(AppendEach(groups, gs, x), h) == ListAt(groups, h) + Occurrences(gs, h, x)
  {
    if gs != [] {
      var n := |gs| - 1;
      AppendEachAt(groups, gs[..n], x, h);
      AppendAt(AppendEach(groups, gs[..n], x), gs[n], x, h);
    }
  }

  lemma {:induction false} AppendEachShape<V>(groups: Groups<V>, gs: seq<string>, x: V)
    requires DistinctKeys(groups) && NonEmptyLists(groups)
    ensures DistinctKeys(AppendEach(groups, gs, x)) && NonEmptyLists(AppendEach(groups, gs, x))
  {
    if gs != [] {
      var n := |gs| - 1;
      AppendEachShape(groups, gs[..n], x);
      AppendShape(AppendEach(groups, gs[..n], x), gs[n], x);
    }
  }

  /** Each genre's list is exactly what the genre collects. */
  lemma {:induction false} GroupAt<V>(items: seq<(seq<string>, V)>, g: string)
    ensures ListAt(Group(items), g) == Members(items, g)
  {
    if items != [] {
      var n := |items| - 1;
      GroupAt(items[..n], g);
      AppendEachAt(Group(items[..n]), items[n].0, items[n].1, g);
    }
  }

  /** Genres are distinct keys and no genre holds an empty list. */
  lemma {:induction false} GroupShape<V>(items: seq<(seq<string>, V)>)
    ensures DistinctKeys(Group(items)) && NonEmptyLists(Group(items))
  {
    if items != [] {
      var n := |items| - 1;
      GroupShape(items[..n]);
      AppendEachShape(Group(items[..n]), items[n].0, items[n].1);
    }
  }

  /** A genre is a key exactly when it collects something, and then it holds what it collects. */
  lemma {:induction false} GroupGet<V>(items: seq<(seq<string>, V)>, g: string)
    ensures Get(Group(items), g) == if Members(items, g) == [] then None else Some(Members(items, g))
  {
    GroupAt(items, g);
    GroupShape(items);
    var d := Group(items);
    GetHasKey(d, g);
    if HasKey(d, g) {
      var i :| 0 <= i < |d| && d[i].0 == g;
      GetAt(d, i);
      assert d[i] in d;
    }
  }

  lemma {:induction false} OccurrencesFrom<V>(gs: seq<string>, g: string, x: V, y: V)
    requires y in Occurrences(gs, g, x)
    ensures y == x && g in gs
  {
    var n := |gs| - 1;
    if y in Occurrences(gs[..n], g, x) {
      OccurrencesFrom(gs[..n], g, x, y);
    }
  }

  /** Everything genre `g` collects is the payload of an item that lists `g`. */
  lemma {:induction false} MembersFrom<V>(items: seq<(seq<string>, V)>, g: string, y: V)
    requires y in Members(items, g)
    ensures exists i :: 0 <= i < |items| && items[i].1 == y && g in items[i].0
  {
    var n := |items| - 1;
    if y in Members(items[..n], g) {
      MembersFrom(items[..n], g, y);
      var i :| 0 <= i < n && items[..n][i].1 == y && g in items[..n][i].0;
      assert items[i] == items[..n][i];
    } else {
      OccurrencesFrom(items[n].0, g, items[n].1, y);
    }
  }

  lemma {:induction false} OccurrencesHas<V>(gs: seq<string>, g: string, x: V)
    requires g in gs
    ensures x in Occurrences(gs, g, x)
  {
    var n := |gs| - 1;
    if gs[n] != g {
      assert g in gs[..n];
      OccurrencesHas(gs[..n], g, x);
    }
  }

  /** Genre `g` collects the payload of every item that lists `g`. */
  lemma {:induction false} MembersHas<V>(items: seq<(seq<string>, V)>, i: int, g: string)
    requires 0 <= i < |items| && g in items[i].0
    ensures items[i].1 in Members(items, g)
  {
    var n := |items| - 1;
    if i < n {
      assert items[..n][i] == items[i];
      MembersHas(items[..n], i, g);
    } else {
      OccurrencesHas(items[n].0, g, items[n].1);
    }
  }

  /** `for g in gs: groups[g].append(x)`, as a loop. */
  method AppendToEach<V>(groups: Groups<V>, gs: seq<string>, x: V) returns (grown: Groups<V>)
    ensures grown == AppendEach(groups, gs, x)
    ensures forall g :: ListAt(grown, g) == ListAt(groups, g) + Occurrences(gs, g, x)
  {
    grown := groups;
    for j := 0 to |gs|
      invariant grown == AppendEach(groups, gs[..j], x)
    {
      assert gs[..j + 1][..j] == gs[..j];
      grown := Append(grown, gs[j], x);
    }
    assert gs[..|gs|] == gs;
    forall g {
      AppendEachAt(groups, gs, x, g);
    }
  }

  /** Every genre of every item, item by item: the order the grouping loop meets them in. */
  function AllGenres<V>(items: seq<(seq<string>, V)>): seq<string>
  {
    if items == [] then []
    else
      var n := |items| - 1;
      AllGenres(items[..n]) + items[n].0
  }

  /** Appending under each genre of `gs` adds the genres not yet keys, in the order of `gs`. */
  lemma {:induction false} AppendEachKeys<V>(groups: Groups<V>, gs: seq<string>, x: V, prev: seq<string>)
    requires Keys(groups) == FirstOccurrences(prev, {})
    ensures Keys(AppendEach(groups, gs, x)) == FirstOccurrences(prev + gs, {})
  {
    if gs == [] {
      assert prev + gs == prev;
    } else {
      var n := |gs| - 1;
      var before := AppendEach(groups, gs[..n], x);
      AppendEachKeys(groups, gs[..n], x, prev);
      PutKeys(before, gs[n], ListAt(before, gs[n]) + [x]);
      FirstOccurrencesMembers(prev + gs[..n], {}, gs[n]);
      assert (prev + gs)[..|prev + gs| - 1] == prev + gs[..n];
    }
  }

  /** The defaultdict's keys are the genres in the order they were first met. */
  lemma {:induction false} GroupKeys<V>(items: seq<(seq<string>, V)>)
    ensures Keys(Group(items)) == FirstOccurrences(AllGenres(items), {})
  {
    if items != [] {
      var n := |items| - 1;
      GroupKeys(items[..n]);
      AppendEachKeys(Group(items[..n]), items[n].0, items[n].1, AllGenres(items[..n]));
    }
  }
}
