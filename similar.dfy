/**
 * Scoring the related-to-seed response of the AniList graph for one seed:
 * `fetch_similar_anime_with_genres`, minus the HTTP request and JSON decoding.
 *
 * The response arrives already parsed. A JSON object the code only tests for
 * truthiness before use is an `Option` (an empty object is falsy, so it is
 * `None` as well); the numeric fields the code reads with `.get(key, 0)` are
 * `Field`s, because a `null` there makes the division raise, and any exception
 * inside the `try` turns the whole seed's answer into `{}`.
 */
module Similar {
  import opened Wrappers
  import opened PyDict

  datatype MediaRecommendation = MediaRecommendation(
    id: Option<int>,
    averageScore: Field<int>,
    popularity: Field<int>,
    genres: Option<seq<string>>)

  datatype RecommendationNode = RecommendationNode(mediaRecommendation: Option<MediaRecommendation>)

  datatype RelationNode = RelationNode(id: Option<int>, relationType: Option<string>, genres: Option<seq<string>>)

  /** A connection object; `nodes` is `None` when the key is missing or null (reading it raises). */
  datatype Connection<N> = Connection(nodes: Option<seq<N>>)

  /** `data['data']['Media']`. */
  datatype Media = Media(
    recommendations: Option<Connection<RecommendationNode>>,
    relations: Option<Connection<RelationNode>>)

  /** A candidate anime: its score and its genre list. */
  datatype Candidate = Candidate(score: real, genres: seq<string>)

  /** The score a dict of candidates gives `k`, or 0 when it has no `k`. */
  function ScoreOf(candidates: Dict<int, Candidate>, k: int): real
  {
    match Get(candidates, k)
    case None => 0.0
    case Some(c) => c.score
  }

  /** The relation tags that earn the related-anime boost. */
  const BoostedRelations: seq<string> := ["SEQUEL", "PREQUEL", "SIDE_STORY", "ALTERNATIVE", "SPIN_OFF"]

  /** Python truthiness of an id read with `.get('id')`: present, not null, not 0. */
  predicate Truthy(id: Option<int>)
  {
    id.Some? && id.value != 0
  }

  /** `.get('genres', [])`. */
  function GenresOrEmpty(genres: Option<seq<string>>): seq<string>
  {
    match genres
    case None => []
    case Some(gs) => gs
  }

  /** `.get(key, 0)` used in arithmetic: `None` when the value is null (a TypeError). */
  function Number(f: Field<int>): Option<real>
  {
    match f
    case Absent => Some(0.0)
    case Null => None
    case Present(n) => Some(n as real)
  }

  /** The recommendation node recommends anime `k` (a truthy id). */
  predicate Recommends(node: RecommendationNode, k: int)
  {
    node.mediaRecommendation.Some? && Truthy(node.mediaRecommendation.value.id)
    && node.mediaRecommendation.value.id.value == k
  }

  /** The relation node boosts anime `k`: a truthy id and one of the boosted relation tags. */
  predicate Boosts(node: RelationNode, k: int)
  {
    Truthy(node.id) && node.id.value == k
    && node.relationType.Some? && node.relationType.value in BoostedRelations
  }

  /** What processing one node does to `similar_anime`. */
  datatype Effect = Skip | Raise | Store(id: int, candidate: Candidate)

  function RecommendationEffect(rating: real, node: RecommendationNode): Effect
  {
    match node.mediaRecommendation
    case None => Skip
    case Some(rec) =>
      if !Truthy(rec.id) then Skip
      else
        match (Number(rec.popularity), Number(rec.averageScore))
        case (Some(popularity), Some(averageScore)) =>
          Store(rec.id.value, Candidate(rating + popularity / 10000.0 + averageScore / 100.0, GenresOrEmpty(rec.genres)))
        case _ => Raise
  }

  function RelationEffect(rating: real, node: RelationNode): Effect
  {
    if Truthy(node.id) && node.relationType.Some? && node.relationType.value in BoostedRelations
    then Store(node.id.value, Candidate(rating * 1.5, GenresOrEmpty(node.genres)))
    else Skip
  }

  /** The assignments the recommendations loop makes, in order; `None` if it raises. */
  function RecommendationWrites(rating: real, nodes: seq<RecommendationNode>): Option<seq<(int, Candidate)>>
  {
    if nodes == [] then Some([])
    else
      var n := |nodes| - 1;
      match RecommendationWrites(rating, nodes[..n])
      case None => None
      case Some(writes) =>
        match RecommendationEffect(rating, nodes[n])
        case Skip => Some(writes)
        case Raise => None
        case Store(k, c) => Some(writes + [(k, c)])
  }

  /** The assignments the relations loop makes, in order. */
  function RelationWrites(rating: real, nodes: seq<RelationNode>): seq<(int, Candidate)>
  {
    if nodes == [] then []
    else
      var n := |nodes| - 1;
      var effect := RelationEffect(rating, nodes[n]);
      if effect.Store? then RelationWrites(rating, nodes[..n]) + [(effect.id, effect.candidate)]
      else RelationWrites(rating, nodes[..n])
  }

  /** Every assignment to `similar_anime` for one media object, or `None` if the `try` body raises. */
  function Writes(rating: real, media: Media): Option<seq<(int, Candidate)>>
  {
    var recommended :=
      match media.recommendations
      case None => Some([])
      case Some(Connection(None)) => None
      case Some(Connection(Some(nodes))) => RecommendationWrites(rating, nodes);
    match recommended
    case None => None
    case Some(writes) =>
      match media.relations
      case None => Some(writes)
      case Some(Connection(None)) => None
      case Some(Connection(Some(nodes))) => Some(writes + RelationWrites(rating, nodes))
  }

  /** The dict the fetch returns for a seed the user rated `rating`; a failed
      request (`None`) and a raising body both give `{}`. */
  function SimilarFor(rating: real, response: Option<Media>): Dict<int, Candidate>
  {
    match response
    case None => []
    case Some(media) =>
      match Writes(rating, media)
      case None => []
      case Some(writes) => PutAll([], writes)
  }

  /** Once the recommendations loop has raised, it has raised for the whole list. */
  lemma {:induction false} RaiseAbsorbs(rating: real, nodes: seq<RecommendationNode>, i: int)
    requires 0 <= i <= |nodes|
    requires RecommendationWrites(rating, nodes[..i]).None?
    ensures RecommendationWrites(rating, nodes).None?
  {
    if i < |nodes| {
      var n := |nodes| - 1;
      assert nodes[..n][..i] == nodes[..i];
      RaiseAbsorbs(rating, nodes[..n], i);
    } else {
      assert nodes[..i] == nodes;
    }
  }

  /** The seed's dict never holds an id twice. */
  lemma {:induction false} SimilarDistinct(rating: real, response: Option<Media>)
    ensures DistinctKeys(SimilarFor(rating, response))
  {
    if response.Some? && Writes(rating, response.value).Some? {
      PutAllDistinct([], Writes(rating, response.value).value);
    }
  }

  /** The recommendations loop: `raised` when a node raises, otherwise the dict
      holding the loop's assignments. */
  method ScoreRecommendations(rating: real, nodes: seq<RecommendationNode>)
    returns (similar: Dict<int, Candidate>, raised: bool, ghost writes: seq<(int, Candidate)>)
    ensures raised <==> RecommendationWrites(rating, nodes).None?
    ensures !raised ==> RecommendationWrites(rating, nodes) == Some(writes) && similar == PutAll([], writes)
    ensures DistinctKeys(similar)
    ensures forall e :: e in similar ==> e.0 != 0
  {
    similar, raised, writes := [], false, [];
    var i := 0;
    while i < |nodes|
      invariant 0 <= i <= |nodes|
      invariant RecommendationWrites(rating, nodes[..i]) == Some(writes)
      invariant similar == PutAll([], writes)
      invariant DistinctKeys(similar)
      invariant forall e :: e in similar ==> e.0 != 0
    {
      assert nodes[..i + 1][..i] == nodes[..i];
      var node := nodes[i];
      if node.mediaRecommendation.Some? {
        var rec := node.mediaRecommendation.value;
        if Truthy(rec.id) {
          var popularity := Number(rec.popularity);
          var averageScore := Number(rec.averageScore);
          if popularity.None? || averageScore.None? {
            RaiseAbsorbs(rating, nodes, i + 1);
            return [], true, writes;
          }
          var candidate := Candidate(rating + popularity.value / 10000.0 + averageScore.value / 100.0, GenresOrEmpty(rec.genres));
          PutDistinct(similar, rec.id.value, candidate);
          PutItems(similar, rec.id.value, candidate);
          similar := Put(similar, rec.id.value, candidate);
          assert (writes + [(rec.id.value, candidate)])[..|writes|] == writes;
          writes := writes + [(rec.id.value, candidate)];
        }
      }
      i := i + 1;
    }
    assert nodes[..|nodes|] == nodes;
  }

  /** The relations loop, continuing from the dict the recommendations loop left. */
  method ScoreRelations(rating: real, nodes: seq<RelationNode>, start: Dict<int, Candidate>, ghost before: seq<(int, Candidate)>)
    returns (similar: Dict<int, Candidate>, ghost writes: seq<(int, Candidate)>)
    requires start == PutAll([], before) && DistinctKeys(start)
    requires forall e :: e in start ==> e.0 != 0
    ensures writes == before + RelationWrites(rating, nodes) && similar == PutAll([], writes)
    ensures DistinctKeys(similar)
    ensures forall e :: e in similar ==> e.0 != 0
  {
    similar, writes := start, before;
    var i := 0;
    while i < |nodes|
      invariant 0 <= i <= |nodes|
      invariant writes == before + RelationWrites(rating, nodes[..i])
      invariant similar == PutAll([], writes)
      invariant DistinctKeys(similar)
      invariant forall e :: e in similar ==> e.0 != 0
    {
      assert nodes[..i + 1][..i] == nodes[..i];
      var node := nodes[i];
      var relId := node.id;
      var relType := node.relationType;
      if Truthy(relId) && relType.Some? && relType.value in BoostedRelations {
        var candidate := Candidate(rating * 1.5, GenresOrEmpty(node.genres));
        PutDistinct(similar, relId.value, candidate);
        PutItems(similar, relId.value, candidate);
        similar := Put(similar, relId.value, candidate);
        assert (writes + [(relId.value, candidate)])[..|writes|] == writes;
        writes := writes + [(relId.value, candidate)];
      }
      i := i + 1;
    }
    assert nodes[..|nodes|] == nodes;
  }

  method FetchSimilar(rating: real, response: Option<Media>) returns (similar: Dict<int, Candidate>)
    ensures similar == SimilarFor(rating, response)
    ensures DistinctKeys(similar)
    ensures forall i :: 0 <= i < |similar| ==> similar[i].0 != 0
  {
    similar := [];
    if response.None? {
      return;
    }
    var media := response.value;
    ghost var writes: seq<(int, Candidate)> := [];
    if media.recommendations.Some? {
      if media.recommendations.value.nodes.None? {
        return;
      }
      var raised;
      similar, raised, writes := ScoreRecommendations(rating, media.recommendations.value.nodes.value);
      if raised {
        return [];
      }
    }
    if media.relations.Some? {
      if media.relations.value.nodes.None? {
        return [];
      }
      similar, writes := ScoreRelations(rating, media.relations.value.nodes.value, similar, writes);
    }
    assert forall i :: 0 <= i < |similar| ==> similar[i] in similar;
  }

  /** Some recommendation node of the response recommends `k`. */
  predicate RecommendedIn(media: Media, k: int)
  {
    media.recommendations.Some? && media.recommendations.value.nodes.Some?
    && exists j :: 0 <= j < |media.recommendations.value.nodes.value|
                   && Recommends(media.recommendations.value.nodes.value[j], k)
  }

  /** Some relation node of the response boosts `k`. */
  predicate BoostedIn(media: Media, k: int)
  {
    media.relations.Some? && media.relations.value.nodes.Some?
    && exists j :: 0 <= j < |media.relations.value.nodes.value|
                   && Boosts(media.relations.value.nodes.value[j], k)
  }

  /** One node of the recommendations loop adds key `k` exactly when it recommends `k`. */
  lemma {:induction false} RecommendationWritesStep(rating: real, nodes: seq<RecommendationNode>, k: int)
    requires nodes != [] && RecommendationWrites(rating, nodes).Some?
    ensures RecommendationWrites(rating, nodes[..|nodes| - 1]).Some?
    ensures LastWith(RecommendationWrites(rating, nodes).value, k).Some?
            <==> LastWith(RecommendationWrites(rating, nodes[..|nodes| - 1]).value, k).Some? || Recommends(nodes[|nodes| - 1], k)
  {
  }

  /** The recommendations loop writes key `k` exactly when some node recommends `k`. */
  lemma {:induction false} RecommendationWritesKeys(rating: real, nodes: seq<RecommendationNode>, k: int)
    requires RecommendationWrites(rating, nodes).Some?
    ensures LastWith(RecommendationWrites(rating, nodes).value, k).Some?
            <==> exists j :: 0 <= j < |nodes| && Recommends(nodes[j], k)
  {
    if nodes != [] {
      var n := |nodes| - 1;
      RecommendationWritesStep(rating, nodes, k);
      RecommendationWritesKeys(rating, nodes[..n], k);
      if exists j :: 0 <= j < n && Recommends(nodes[..n][j], k) {
        var j :| 0 <= j < n && Recommends(nodes[..n][j], k);
        assert nodes[j] == nodes[..n][j];
      }
      if exists j :: 0 <= j < |nodes| && Recommends(nodes[j], k) {
        var j :| 0 <= j < |nodes| && Recommends(nodes[j], k);
        if j < n {
          assert nodes[..n][j] == nodes[j];
        }
      }
    }
  }

  /** The relations loop writes key `k` exactly when some node boosts `k`. */
  lemma {:induction false} RelationWritesKeys(rating: real, nodes: seq<RelationNode>, k: int)
    ensures LastWith(RelationWrites(rating, nodes), k).Some?
            <==> exists j :: 0 <= j < |nodes| && Boosts(nodes[j], k)
  {
    if nodes != [] {
      var n := |nodes| - 1;
      RelationWritesKeys(rating, nodes[..n], k);
      if exists j :: 0 <= j < n && Boosts(nodes[..n][j], k) {
        var j :| 0 <= j < n && Boosts(nodes[..n][j], k);
        assert nodes[j] == nodes[..n][j];
      }
      if exists j :: 0 <= j < |nodes| && Boosts(nodes[j], k) {
        var j :| 0 <= j < |nodes| && Boosts(nodes[j], k);
        if j < n {
          assert nodes[..n][j] == nodes[j];
        }
      }
    }
  }

  /** The last node that recommends `k` decides what the recommendations loop leaves for `k`. */
  lemma {:induction false} RecommendationWritesLast(rating: real, nodes: seq<RecommendationNode>, i: int, k: int)
    requires RecommendationWrites(rating, nodes).Some?
    requires 0 <= i < |nodes| && Recommends(nodes[i], k)
    requires forall j :: i < j < |nodes| ==> !Recommends(nodes[j], k)
    ensures RecommendationEffect(rating, nodes[i]).Store?
    ensures LastWith(RecommendationWrites(rating, nodes).value, k)
            == Some(RecommendationEffect(rating, nodes[i]).candidate)
  {
    var n := |nodes| - 1;
    if i < n {
      assert nodes[..n][i] == nodes[i];
      forall j | i < j < n ensures !Recommends(nodes[..n][j], k) {
        assert nodes[..n][j] == nodes[j];
      }
      RecommendationWritesLast(rating, nodes[..n], i, k);
    }
  }

  /** The last node that boosts `k` decides what the relations loop leaves for `k`. */
  lemma {:induction false} RelationWritesLast(rating: real, nodes: seq<RelationNode>, i: int, k: int)
    requires 0 <= i < |nodes| && Boosts(nodes[i], k)
    requires forall j :: i < j < |nodes| ==> !Boosts(nodes[j], k)
    ensures LastWith(RelationWrites(rating, nodes), k) == Some(Candidate(rating * 1.5, GenresOrEmpty(nodes[i].genres)))
  {
    var n := |nodes| - 1;
    if i < n {
      assert nodes[..n][i] == nodes[i];
      forall j | i < j < n ensures !Boosts(nodes[..n][j], k) {
        assert nodes[..n][j] == nodes[j];
      }
      RelationWritesLast(rating, nodes[..n], i, k);
    }
  }

  /** With no boosted relation for `k`, the last recommending edge decides the write for `k`. */
  lemma {:induction false} RecommendationDecides(rating: real, media: Media, nodes: seq<RecommendationNode>, i: int, k: int)
    requires media.recommendations == Some(Connection(Some(nodes)))
    requires Writes(rating, media).Some?
    requires 0 <= i < |nodes| && Recommends(nodes[i], k)
    requires forall j :: i < j < |nodes| ==> !Recommends(nodes[j], k)
    requires !BoostedIn(media, k)
    ensures RecommendationEffect(rating, nodes[i]).Store?
    ensures LastWith(Writes(rating, media).value, k) == Some(RecommendationEffect(rating, nodes[i]).candidate)
  {
    var recommended := RecommendationWrites(rating, nodes).value;
    RecommendationWritesLast(rating, nodes, i, k);
    var writes := Writes(rating, media).value;
    if media.relations.Some? {
      var rels := media.relations.value.nodes.value;
      assert writes == recommended + RelationWrites(rating, rels);
      RelationWritesKeys(rating, rels, k);
      LastWithConcat(recommended, RelationWrites(rating, rels), k);
    } else {
      assert writes == recommended;
    }
  }

  /** A recommendation edge scores `rating + popularity/10000 + averageScore/100`
      (a missing field counts 0), keeps its genres (or none), and the last edge
      for an id wins, unless a boosted relation writes the same id afterwards. */
  lemma {:induction false} RecommendationScore(rating: real, media: Media, nodes: seq<RecommendationNode>, i: int, k: int)
    requires media.recommendations == Some(Connection(Some(nodes)))
    requires Writes(rating, media).Some?
    requires 0 <= i < |nodes| && Recommends(nodes[i], k)
    requires forall j :: i < j < |nodes| ==> !Recommends(nodes[j], k)
    requires !BoostedIn(media, k)
    // The two requirements below already follow from `Writes(...).Some?`
    // (a null number raises); they let the ensures name the numbers.
    requires nodes[i].mediaRecommendation.value.popularity != Null
    requires nodes[i].mediaRecommendation.value.averageScore != Null
    ensures var rec := nodes[i].mediaRecommendation.value;
            Get(SimilarFor(rating, Some(media)), k)
            == Some(Candidate(rating + Number(rec.popularity).value / 10000.0 + Number(rec.averageScore).value / 100.0,
                              GenresOrEmpty(rec.genres)))
  {
    var rec := nodes[i].mediaRecommendation.value;
    RecommendationDecides(rating, media, nodes, i, k);
    assert RecommendationEffect(rating, nodes[i]).candidate
           == Candidate(rating + Number(rec.popularity).value / 10000.0 + Number(rec.averageScore).value / 100.0,
                        GenresOrEmpty(rec.genres));
    PutAllGet([], Writes(rating, media).value, k);
  }

  /** A boosted relation edge scores `rating * 1.5`, keeps its genres (or none), and
      overwrites whatever the recommendation edges wrote for the same id. */
  lemma {:induction false} RelationScore(rating: real, media: Media, nodes: seq<RelationNode>, i: int, k: int)
    requires media.relations == Some(Connection(Some(nodes)))
    requires Writes(rating, media).Some?
    requires 0 <= i < |nodes| && Boosts(nodes[i], k)
    requires forall j :: i < j < |nodes| ==> !Boosts(nodes[j], k)
    ensures Get(SimilarFor(rating, Some(media)), k) == Some(Candidate(rating * 1.5, GenresOrEmpty(nodes[i].genres)))
  {
    RelationWritesLast(rating, nodes, i, k);
    var writes := Writes(rating, media).value;
    var recommended :| writes == recommended + RelationWrites(rating, nodes);
    LastWithConcat(recommended, RelationWrites(rating, nodes), k);
    PutAllGet([], writes, k);
  }

  /** Only truthy ids of recommended or boosted anime enter the seed's dict. */
  lemma {:induction false} SimilarKeys(rating: real, response: Option<Media>, k: int)
    requires HasKey(SimilarFor(rating, response), k)
    ensures k != 0
    ensures response.Some? && (RecommendedIn(response.value, k) || BoostedIn(response.value, k))
  {
    var similar := SimilarFor(rating, response);
    GetHasKey(similar, k);
    var media := response.value;
    var writes := Writes(rating, media).value;
    PutAllGet([], writes, k);
    assert LastWith(writes, k).Some?;
    var recommended :=
      match media.recommendations
      case None => []
      case Some(c) => RecommendationWrites(rating, c.nodes.value).value;
    if media.recommendations.Some? {
      RecommendationWritesKeys(rating, media.recommendations.value.nodes.value, k);
    }
    if media.relations.Some? {
      var rels := media.relations.value.nodes.value;
      assert writes == recommended + RelationWrites(rating, rels);
      RelationWritesKeys(rating, rels, k);
      LastWithConcat(recommended, RelationWrites(rating, rels), k);
    } else {
      assert writes == recommended;
    }
  }

  /** Order of the seed's dict: each id stands where it was first assigned, so
      a relation that overwrites a recommended id keeps that id's place. */
  lemma {:induction false} SimilarOrder(rating: real, media: Media)
    requires Writes(rating, media).Some?
    ensures Keys(SimilarFor(rating, Some(media))) == FirstOccurrences(Keys(Writes(rating, media).value), {})
  {
    var writes := Writes(rating, media).value;
    PutAllKeys([], writes, []);
    assert [] + Keys(writes) == Keys(writes);
  }

  /** The recommended ids come first, in recommendation order, before any id
      only a relation brought in. */
  lemma {:induction false} RecommendedFirst(rating: real, media: Media, nodes: seq<RecommendationNode>)
    requires media.recommendations == Some(Connection(Some(nodes)))
    requires Writes(rating, media).Some?
    ensures RecommendationWrites(rating, nodes).Some?
    ensures FirstOccurrences(Keys(RecommendationWrites(rating, nodes).value), {})
            <= Keys(SimilarFor(rating, Some(media)))
  {
    var recommended := RecommendationWrites(rating, nodes).value;
    var writes := Writes(rating, media).value;
    SimilarOrder(rating, media);
    var rest: seq<(int, Candidate)>;
    if media.relations.Some? {
      rest := RelationWrites(rating, media.relations.value.nodes.value);
      assert writes == recommended + rest;
    } else {
      rest := [];
      assert writes == recommended;
      assert writes == recommended + rest;
    }
    KeysConcat(recommended, rest);
    FirstOccurrencesPrefix(Keys(recommended), Keys(rest), {});
  }

  /** A null `popularity` or `averageScore` on a recommendation with a truthy id
      raises inside the `try`, so the whole seed contributes nothing. */
  lemma {:induction false} NullNumberDiscardsSeed(rating: real, media: Media, nodes: seq<RecommendationNode>, i: int)
    requires media.recommendations == Some(Connection(Some(nodes)))
    requires 0 <= i < |nodes| && nodes[i].mediaRecommendation.Some?
    requires Truthy(nodes[i].mediaRecommendation.value.id)
    requires nodes[i].mediaRecommendation.value.popularity == Null
             || nodes[i].mediaRecommendation.value.averageScore == Null
    ensures SimilarFor(rating, Some(media)) == []
  {
    assert nodes[..i + 1][..i] == nodes[..i];
    RaiseAbsorbs(rating, nodes, i + 1);
  }
}
