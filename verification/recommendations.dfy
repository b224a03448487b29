/**
 * "For you" recommendations: the user's watched movies are read from the activity store,
 * genre interest is scored from them, the best-rated (or most recent) movie is picked, and
 * catalog suggestions are gathered per genre and for the picked movie, leaving out every
 * movie the user has already watched.
 *
 * The store query is an input (`watched`: the user's activity records with media type
 * `movie` and status `watched`, in store order; `None` when the query fails). Catalog
 * calls are inputs too: `details(id)` is the movie-details lookup, `discover(g)` the
 * discover-by-genre first page and `similar(id)` the recommendations for a movie; `None`
 * stands for a call that throws.
 */
module Recommendations {
  import opened Wrappers
  import opened JsValues
  import opened Seqs

  /** A genre of the catalog. */
  datatype Genre = Genre(id: int, name: string)

  /** A catalog movie: the fields the recommendations read. */
  datatype Movie = Movie(id: int, title: string, genres: seq<Genre>)

  /** The running per-genre sum while scoring (the value stored in `genreScores`). */
  datatype GenreTally = GenreTally(id: int, name: string, score: real, count: nat)

  /** A scored genre as returned: the tally plus its average. */
  datatype GenreScore = GenreScore(id: int, name: string, score: real, count: nat, avg: real)

  /** `genreScores`: a map from genre id to its tally, iterated in insertion order. */
  datatype Tally = Tally(order: seq<int>, byId: map<int, GenreTally>)

  /**
   * A discover or recommendations call made while assembling the suggestions. The details
   * lookups of the top-genre and top-rated queries are not among them.
   */
  datatype CatalogCall = Discover(genre: int) | Similar(movie: int)

  /** The result object; `topGenres == None` is the empty shape, which has no such field. */
  datatype ForYou = ForYou(
    interestBased: seq<Movie>,
    becauseYouWatched: seq<Movie>,
    topMovie: Option<Movie>,
    topGenres: Option<seq<GenreScore>>)

  /** `{ interestBased: [], becauseYouWatched: [], topMovie: null }`. */
  const Empty := ForYou([], [], None, None)

  /** `limit(200)` on the scoring and top-rated queries. */
  const ActivityQueryLimit: nat := 200
  /** Genres scored and movies picked per call. */
  const TopCount: nat := 3
  /** Suggestions kept per genre. */
  const PerGenre: nat := 6
  /** Suggestions kept for the top movie. */
  const BecauseLimit: nat := 12

  // ---------------------------------------------------------------- record fields

  function TmdbId(a: Doc): Value
  {
    Field(a, "tmdbId")
  }

  /** The weight of a watched record in a genre's score: its rating when it is a number, else 1. */
  function Weight(a: Doc): real
  {
    match Field(a, "rating")
    case Num(n) => n
    case _ => 1.0
  }

  /** The genres a record contributes to; `None` when it has no id or its details lookup fails. */
  function GenresOf(a: Doc, details: Value -> Option<Movie>): Option<seq<Genre>>
  {
    if !Truthy(TmdbId(a)) then None
    else
      match details(TmdbId(a))
      case None => None
      case Some(m) => Some(m.genres)
  }

  // ---------------------------------------------------------------- genre scoring

  /** Every id of `order` has a tally under its own id, with a positive count, and nothing else does. */
  ghost predicate ValidTally(t: Tally)
  {
    && NoDup(t.order)
    && (forall i :: 0 <= i < |t.order| ==> t.order[i] in t.byId)
    && (forall g :: g in t.byId ==> g in t.order && t.byId[g].id == g && t.byId[g].count > 0)
  }

  const EmptyTally := Tally([], map[])

  /** One genre of a record: add the weight to its score and one to its count. */
  function AddGenre(t: Tally, g: Genre, w: real): (r: Tally)
    requires ValidTally(t)
    ensures ValidTally(r)
  {
    if g.id in t.byId then
      var prev := t.byId[g.id];
      Tally(t.order, t.byId[g.id := prev.(score := prev.score + w, count := prev.count + 1)])
    else
      Tally(t.order + [g.id], t.byId[g.id := GenreTally(g.id, g.name, w, 1)])
  }

  /** All genres of a record, in order. */
  function AddGenres(t: Tally, gs: seq<Genre>, w: real): (r: Tally)
    requires ValidTally(t)
    ensures ValidTally(r)
  {
    if gs == [] then t
    else AddGenre(AddGenres(t, gs[..|gs| - 1], w), gs[|gs| - 1], w)
  }

  /** The tally after the given records, in order. */
  function TallyOf(records: seq<Doc>, details: Value -> Option<Movie>): (t: Tally)
    ensures ValidTally(t)
  {
    if records == [] then EmptyTally
    else
      var t := TallyOf(records[..|records| - 1], details);
      match GenresOf(records[|records| - 1], details)
      case None => t
      case Some(gs) => AddGenres(t, gs, Weight(records[|records| - 1]))
  }

  /** The score of genre `id` in `t`, zero when it has none. */
  function ScoreIn(t: Tally, id: int): real
  {
    if id in t.byId then t.byId[id].score else 0.0
  }

  /** The count of genre `id` in `t`, zero when it has none. */
  function CountIn(t: Tally, id: int): nat
  {
    if id in t.byId then t.byId[id].count else 0
  }

  /** How many times genre `id` appears in a genre list. */
  function Occurrences(gs: seq<Genre>, id: int): nat
  {
    if gs == [] then 0
    else Occurrences(gs[..|gs| - 1], id) + (if gs[|gs| - 1].id == id then 1 else 0)
  }

  /** The weight `w` added once for every appearance of genre `id` in a genre list. */
  function Weighted(gs: seq<Genre>, id: int, w: real): real
  {
    if gs == [] then 0.0
    else Weighted(gs[..|gs| - 1], id, w) + (if gs[|gs| - 1].id == id then w else 0.0)
  }

  /** Reference definition of a genre's score: the weights of its records, once per appearance. */
  function ScoreSum(records: seq<Doc>, details: Value -> Option<Movie>, id: int): real
  {
    if records == [] then 0.0
    else
      var a := records[|records| - 1];
      ScoreSum(records[..|records| - 1], details, id) +
        match GenresOf(a, details)
        case None => 0.0
        case Some(gs) => Weighted(gs, id, Weight(a))
  }

  /** Reference definition of a genre's count: its appearances over the records. */
  function CountSum(records: seq<Doc>, details: Value -> Option<Movie>, id: int): nat
  {
    if records == [] then 0
    else
      var a := records[|records| - 1];
      CountSum(records[..|records| - 1], details, id) +
        match GenresOf(a, details)
        case None => 0
        case Some(gs) => Occurrences(gs, id)
  }

  lemma AddGenreEffect(t: Tally, g: Genre, w: real, id: int)
    requires ValidTally(t)
    ensures var r := AddGenre(t, g, w);
      && ScoreIn(r, id) == ScoreIn(t, id) + (if g.id == id then w else 0.0)
      && CountIn(r, id) == CountIn(t, id) + (if g.id == id then 1 else 0)
      && (id in r.byId <==> id in t.byId || g.id == id)
  {
  }

  /** Adding a record's genres adds its weight once per appearance of the genre. */
  lemma {:induction false} AddGenresEffect(t: Tally, gs: seq<Genre>, w: real, id: int)
    requires ValidTally(t)
    ensures var r := AddGenres(t, gs, w);
      && ScoreIn(r, id) == ScoreIn(t, id) + Weighted(gs, id, w)
      && CountIn(r, id) == CountIn(t, id) + Occurrences(gs, id)
      && (id in r.byId <==> id in t.byId || Occurrences(gs, id) > 0)
  {
    if gs != [] {
      var init := gs[..|gs| - 1];
      var g := gs[|gs| - 1];
      var mid := AddGenres(t, init, w);
      var k := Occurrences(init, id);
      assert AddGenres(t, gs, w) == AddGenre(mid, g, w);
      assert Occurrences(gs, id) == k + (if g.id == id then 1 else 0);
      AddGenresEffect(t, init, w, id);
      AddGenreEffect(mid, g, w, id);
    }
  }

  /**
   * The scoring loop computes, for every genre, the sum of the weights of the records that
   * have it and the number of such records (a genre listed twice counts twice), and holds
   * exactly the genres with a positive count.
   */
  lemma {:induction false} TallyMeaning(records: seq<Doc>, details: Value -> Option<Movie>, id: int)
    ensures var t := TallyOf(records, details);
      && ScoreIn(t, id) == ScoreSum(records, details, id)
      && CountIn(t, id) == CountSum(records, details, id)
      && (id in t.byId <==> CountSum(records, details, id) > 0)
  {
    if records != [] {
      var init := records[..|records| - 1];
      var a := records[|records| - 1];
      TallyMeaning(init, details, id);
      match GenresOf(a, details)
      case None =>
      case Some(gs) =>
        AddGenresEffect(TallyOf(init, details), gs, Weight(a), id);
    }
  }

  /** `{ ...g, avg: g.count ? g.score / g.count : 0 }`. */
  function Finish(g: GenreTally): GenreScore
  {
    GenreScore(g.id, g.name, g.score, g.count, if g.count != 0 then g.score / g.count as real else 0.0)
  }

  /**
   * `Array.from(genreScores.values()).map(...)`: the finished tallies in insertion order.
   * Its ensures are element accessors; `ScoresMeaning` states what each element means.
   */
  function ScoresOf(t: Tally): (s: seq<GenreScore>)
    requires ValidTally(t)
    ensures |s| == |t.order|
    ensures forall i :: 0 <= i < |s| ==> s[i] == Finish(t.byId[t.order[i]])
  {
    seq(|t.order|, i requires 0 <= i < |t.order| => Finish(t.byId[t.order[i]]))
  }

  function Avg(g: GenreScore): real
  {
    g.avg
  }

  /** The records the scoring and top-rated queries read. */
  function Recent(watched: seq<Doc>): seq<Doc>
  {
    Take(watched, ActivityQueryLimit)
  }

  /** `getTopGenresForUser(userId, max)` on the given query result. */
  function TopGenres(watched: seq<Doc>, details: Value -> Option<Movie>, max: nat): seq<GenreScore>
  {
    Take(SortDesc(ScoresOf(TallyOf(Recent(watched), details)), Avg), max)
  }

  /** Every finished genre carries the reference score and count of its id, and their average. */
  lemma ScoresMeaning(records: seq<Doc>, details: Value -> Option<Movie>)
    ensures forall g :: g in ScoresOf(TallyOf(records, details)) ==>
      && g.count == CountSum(records, details, g.id) > 0
      && g.score == ScoreSum(records, details, g.id)
      && g.avg == g.score / g.count as real
  {
    var t := TallyOf(records, details);
    var all := ScoresOf(t);
    forall g | g in all
      ensures g.count == CountSum(records, details, g.id) > 0
      ensures g.score == ScoreSum(records, details, g.id)
    {
      var i :| 0 <= i < |all| && all[i] == g;
      assert g == Finish(t.byId[t.order[i]]);
      TallyMeaning(records, details, t.order[i]);
    }
  }

  /**
   * The top genres: `max` of the scored genres (all of them when there are fewer), ordered
   * by average, each one's score, count and average those of the reference definitions over
   * the first 200 records, and none of the genres left out has a higher average than a genre
   * kept.
   */
  lemma TopGenresMeaning(watched: seq<Doc>, details: Value -> Option<Movie>, max: nat)
    ensures var top := TopGenres(watched, details, max);
      var recs := Recent(watched);
      var all := ScoresOf(TallyOf(recs, details));
      && |top| == (if max < |all| then max else |all|)
      && multiset(top) <= multiset(all)
      && SortedDesc(top, Avg)
      && (forall g :: g in top ==>
            && g.count == CountSum(recs, details, g.id) > 0
            && g.score == ScoreSum(recs, details, g.id)
            && g.avg == g.score / g.count as real)
      && (forall g, h :: g in top && h in ScoresOf(TallyOf(recs, details)) && h !in top ==> g.avg >= h.avg)
  {
    var recs := Recent(watched);
    var all := ScoresOf(TallyOf(recs, details));
    var top := TopGenres(watched, details, max);
    assert top == Take(SortDesc(all, Avg), max);
    TakeSortedIsTop(all, Avg, max);
    assert multiset(top) <= multiset(all);
    ScoresMeaning(recs, details);
    forall g | g in top
      ensures g in all
    {
      assert g in multiset(top);
    }
    forall g, h | g in top && h in all && h !in top
      ensures g.avg >= h.avg
    {
      assert Avg(g) >= Avg(h);
    }
  }

  /** The tally after one more record. */
  lemma TallySnoc(records: seq<Doc>, i: nat, details: Value -> Option<Movie>)
    requires i < |records|
    ensures TallyOf(records[..i + 1], details) ==
      match GenresOf(records[i], details)
      case None => TallyOf(records[..i], details)
      case Some(gs) => AddGenres(TallyOf(records[..i], details), gs, Weight(records[i]))
  {
    assert records[..i + 1][..i] == records[..i];
  }

  /** The inner loop of the scoring: the record's genres added one by one. */
  method AddRecordGenres(t: Tally, gs: seq<Genre>, w: real) returns (r: Tally)
    requires ValidTally(t)
    ensures r == AddGenres(t, gs, w)
  {
    r := t;
    var j := 0;
    while j < |gs|
      invariant 0 <= j <= |gs|
      invariant r == AddGenres(t, gs[..j], w)
    {
      assert gs[..j + 1][..j] == gs[..j];
      r := AddGenre(r, gs[j], w);
      j := j + 1;
    }
    assert gs[..j] == gs;
  }

  /**
   * The scoring loop of `getTopGenresForUser`, with its details cache. `fetched` lists the
   * ids whose details were requested, in order: only records with an id cause a lookup,
   * and an id is looked up again only when its earlier lookup failed, since only
   * successful lookups are cached.
   */
  method TopGenresForUser(watched: seq<Doc>, details: Value -> Option<Movie>, max: nat)
    returns (top: seq<GenreScore>, fetched: seq<Value>)
    ensures top == TopGenres(watched, details, max)
    ensures forall v :: v in fetched ==> Truthy(v)
    ensures forall i, j :: 0 <= i < j < |fetched| && fetched[i] == fetched[j] ==> details(fetched[i]).None?
  {
    var records := Take(watched, ActivityQueryLimit);
    var genreScores := EmptyTally;
    var cache: map<Value, Movie> := map[];
    fetched := [];
    var i := 0;
    while i < |records|
      invariant 0 <= i <= |records|
      invariant genreScores == TallyOf(records[..i], details)
      invariant forall v :: v in cache ==> details(v) == Some(cache[v])
      invariant forall v :: v in fetched ==> Truthy(v)
      invariant forall k :: 0 <= k < |fetched| && details(fetched[k]).Some? ==> fetched[k] in cache
      invariant forall k, l :: 0 <= k < l < |fetched| && fetched[k] == fetched[l] ==> details(fetched[k]).None?
    {
      var a := records[i];
      TallySnoc(records, i, details);
      var id := TmdbId(a);
      if Truthy(id) {
        var movie: Option<Movie>;
        if id in cache {
          movie := Some(cache[id]);
        } else {
          movie := details(id);
          fetched := fetched + [id];
          if movie.Some? {
            cache := cache[id := movie.value];
          }
        }
        if movie.Some? {
          genreScores := AddRecordGenres(genreScores, movie.value.genres, Weight(a));
        }
      }
      i := i + 1;
    }
    assert records[..i] == records;
    top := Take(SortDesc(ScoresOf(genreScores), Avg), max);
  }

  // ---------------------------------------------------------------- top-rated movies

  /** A record the top-rated choice considers with its rating: it has an id and a numeric rating. */
  predicate IsRated(a: Doc)
  {
    Truthy(TmdbId(a)) && Field(a, "rating").Num?
  }

  /** A record with an id and no numeric rating. */
  predicate IsUnrated(a: Doc)
  {
    Truthy(TmdbId(a)) && !Field(a, "rating").Num?
  }

  /** `a.rating ?? 0`. */
  function RatingKey(a: Doc): real
  {
    match Field(a, "rating")
    case Num(n) => n
    case _ => 0.0
  }

  /** `a.timestamp?.seconds || 0`. */
  function SecondsKey(a: Doc): real
  {
    match Field(a, "timestamp")
    case Time(ts) => ts.seconds as real
    case _ => 0.0
  }

  /**
   * The records whose details are fetched: the rated ones by rating, best first, or, when
   * there is none, the unrated ones by time, latest first; at most `max` of them.
   */
  function Picks(watched: seq<Doc>, max: nat): seq<Doc>
  {
    var rated := Filter(Recent(watched), IsRated);
    var unrated := Filter(Recent(watched), IsUnrated);
    if |rated| > 0 then Take(SortDesc(rated, RatingKey), max)
    else Take(SortDesc(unrated, SecondsKey), max)
  }

  /** The details of each record, in order, skipping failed lookups. */
  function FetchAll(picks: seq<Doc>, details: Value -> Option<Movie>): (movies: seq<Movie>)
    ensures |movies| <= |picks|
  {
    if picks == [] then []
    else
      FetchAll(picks[..|picks| - 1], details) +
        match details(TmdbId(picks[|picks| - 1]))
        case None => []
        case Some(m) => [m]
  }

  /** `getTopRatedMovies(userId, max)` on the given query result. */
  function TopRated(watched: seq<Doc>, details: Value -> Option<Movie>, max: nat): seq<Movie>
  {
    FetchAll(Picks(watched, max), details)
  }

  /**
   * When some record among the first 200 has an id and a numeric rating, the picks are
   * `max` of the rated records (all of them when there are fewer), best first, and no rated
   * record left out rates higher than one picked.
   */
  lemma PicksRated(watched: seq<Doc>, max: nat)
    requires exists i :: 0 <= i < |Recent(watched)| && IsRated(Recent(watched)[i])
    ensures var picks := Picks(watched, max);
      var rated := Filter(Recent(watched), IsRated);
      && |picks| == (if max < |rated| then max else |rated|)
      && multiset(picks) <= multiset(rated)
      && SortedDesc(picks, RatingKey)
      && (forall a :: a in picks ==> a in Recent(watched) && IsRated(a))
      && (forall a, b :: a in picks && b in Recent(watched) && IsRated(b) && b !in picks ==>
            RatingKey(a) >= RatingKey(b))
  {
    var recs := Recent(watched);
    var rated := Filter(recs, IsRated);
    var i :| 0 <= i < |recs| && IsRated(recs[i]);
    assert recs[i] in rated;
    var picks := Take(SortDesc(rated, RatingKey), max);
    TakeSortedIsTop(rated, RatingKey, max);
    forall a | a in picks
      ensures a in recs && IsRated(a)
    {
      assert a in multiset(picks);
      assert a in multiset(rated);
    }
  }

  /**
   * When no record among the first 200 has a numeric rating, the picks are `max` of the
   * records with an id (all of them when there are fewer), latest first, with a missing
   * timestamp counting as time 0.
   */
  lemma PicksFallback(watched: seq<Doc>, max: nat)
    requires forall i :: 0 <= i < |Recent(watched)| ==> !IsRated(Recent(watched)[i])
    ensures var picks := Picks(watched, max);
      var unrated := Filter(Recent(watched), IsUnrated);
      && |picks| == (if max < |unrated| then max else |unrated|)
      && multiset(picks) <= multiset(unrated)
      && SortedDesc(picks, SecondsKey)
      && (forall a :: a in picks ==> a in Recent(watched) && Truthy(TmdbId(a)))
      && (forall a, b :: a in picks && b in Recent(watched) && Truthy(TmdbId(b)) && b !in picks ==>
            SecondsKey(a) >= SecondsKey(b))
  {
    var recs := Recent(watched);
    var unrated := Filter(recs, IsUnrated);
    FilterNone(recs, IsRated);
    var picks := Take(SortDesc(unrated, SecondsKey), max);
    assert Picks(watched, max) == picks;
    TakeSortedIsTop(unrated, SecondsKey, max);
    forall a | a in picks
      ensures a in recs && Truthy(TmdbId(a))
    {
      assert a in multiset(picks);
      assert a in multiset(unrated);
    }
    forall b | b in recs && Truthy(TmdbId(b))
      ensures b in unrated
    {
      var k :| 0 <= k < |recs| && recs[k] == b;
      assert IsUnrated(recs[k]);
    }
  }

  /** One more record goes to the rated group, the unrated group, or neither. */
  lemma SplitStep(done: seq<Doc>, a: Doc)
    ensures Filter(done + [a], IsRated) == Filter(done, IsRated) + (if IsRated(a) then [a] else [])
    ensures Filter(done + [a], IsUnrated) == Filter(done, IsUnrated) + (if IsUnrated(a) then [a] else [])
  {
    FilterAppend(done, [a], IsRated);
    FilterAppend(done, [a], IsUnrated);
    assert [a][1..] == [];
  }

  /**
   * `getTopRatedMovies`: split the records by whether they carry a numeric rating, sort the
   * chosen group, and fetch the details of the first `max`, skipping failed lookups.
   */
  method TopRatedMovies(watched: seq<Doc>, details: Value -> Option<Movie>, max: nat)
    returns (movies: seq<Movie>)
    ensures movies == TopRated(watched, details, max)
    ensures |movies| <= max
  {
    var records := Take(watched, ActivityQueryLimit);
    var rated: seq<Doc> := [];
    var unrated: seq<Doc> := [];
    var i := 0;
    while i < |records|
      invariant 0 <= i <= |records|
      invariant rated == Filter(records[..i], IsRated)
      invariant unrated == Filter(records[..i], IsUnrated)
    {
      var a := records[i];
      assert records[..i + 1] == records[..i] + [a];
      SplitStep(records[..i], a);
      if Truthy(TmdbId(a)) {
        if Field(a, "rating").Num? {
          rated := rated + [a];
        } else {
          unrated := unrated + [a];
        }
      }
      i := i + 1;
    }
    assert records[..i] == records;
    var picked := if |rated| > 0 then Take(SortDesc(rated, RatingKey), max)
                  else Take(SortDesc(unrated, SecondsKey), max);
    movies := FetchEach(picked, details);
  }

  /** The details loop of `getTopRatedMovies`: one lookup per pick, failures skipped. */
  method FetchEach(picked: seq<Doc>, details: Value -> Option<Movie>) returns (movies: seq<Movie>)
    ensures movies == FetchAll(picked, details)
  {
    movies := [];
    var j := 0;
    while j < |picked|
      invariant 0 <= j <= |picked|
      invariant movies == FetchAll(picked[..j], details)
    {
      var next := picked[..j + 1];
      assert next[..j] == picked[..j] && next[j] == picked[j];
      var m := details(TmdbId(picked[j]));
      if m.Some? {
        movies := movies + [m.value];
      }
      j := j + 1;
    }
    assert picked[..j] == picked;
  }

  // ---------------------------------------------------------------- watched ids

  /** The truthy `tmdbId` of each record, in order, repeats included. */
  function TmdbIds(records: seq<Doc>): seq<Value>
  {
    if records == [] then []
    else
      var a := records[|records| - 1];
      TmdbIds(records[..|records| - 1]) + (if Truthy(TmdbId(a)) then [TmdbId(a)] else [])
  }

  function Itself(v: Value): Value
  {
    v
  }

  /** `Array.from(ids)` of the `Set` the loop fills: each id once, in first-seen order. */
  function WatchedIds(watched: seq<Doc>): seq<Value>
  {
    Dedup(TmdbIds(watched), Itself)
  }

  lemma {:induction false} TmdbIdsMeaning(records: seq<Doc>)
    ensures forall v :: v in TmdbIds(records) <==>
      Truthy(v) && exists i :: 0 <= i < |records| && TmdbId(records[i]) == v
  {
    if records != [] {
      var init := records[..|records| - 1];
      TmdbIdsMeaning(init);
      forall v | Truthy(v) && (exists i :: 0 <= i < |records| && TmdbId(records[i]) == v)
        ensures v in TmdbIds(records)
      {
        var i :| 0 <= i < |records| && TmdbId(records[i]) == v;
        if i < |records| - 1 {
          assert init[i] == records[i];
        }
      }
      forall v | v in TmdbIds(records)
        ensures exists i :: 0 <= i < |records| && TmdbId(records[i]) == v
      {
        if v in TmdbIds(init) {
          var i :| 0 <= i < |init| && TmdbId(init[i]) == v;
          assert records[i] == init[i];
        } else {
          assert TmdbId(records[|records| - 1]) == v;
        }
      }
    }
  }

  /** The watched ids: no repeats, and exactly the truthy ids of all the records. */
  lemma WatchedIdsMeaning(watched: seq<Doc>)
    ensures var ids := WatchedIds(watched);
      && NoDup(ids)
      && forall v :: v in ids <==> Truthy(v) && exists i :: 0 <= i < |watched| && TmdbId(watched[i]) == v
  {
    var all := TmdbIds(watched);
    var ids := WatchedIds(watched);
    DedupMeaning(all, Itself);
    TmdbIdsMeaning(watched);
    forall v
      ensures v in ids <==> v in all
    {
      if v in ids {
        SubseqElements(ids, all);
      }
      if v in all {
        assert Itself(v) in Keys(all, Itself);
        var x :| x in ids && Itself(x) == v;
      }
    }
  }

  /** `getWatchedMovieIds`: every record (no limit), each truthy id added once to a `Set`. */
  method WatchedMovieIds(watched: seq<Doc>) returns (ids: seq<Value>)
    ensures ids == WatchedIds(watched)
  {
    var seen: set<Value> := {};
    ids := [];
    var i := 0;
    while i < |watched|
      invariant 0 <= i <= |watched|
      invariant ids == Dedup(TmdbIds(watched[..i]), Itself)
      invariant seen == Keys(TmdbIds(watched[..i]), Itself)
    {
      var a := watched[i];
      var done := TmdbIds(watched[..i]);
      var next := watched[..i + 1];
      assert next[..i] == watched[..i] && next[i] == a;
      assert TmdbIds(next) == done + (if Truthy(TmdbId(a)) then [TmdbId(a)] else []);
      if Truthy(TmdbId(a)) {
        DedupSnoc(done, TmdbId(a), Itself);
        KeysSnoc(done, TmdbId(a), Itself);
        if TmdbId(a) !in seen {
          ids := ids + [TmdbId(a)];
        }
        seen := seen + {TmdbId(a)};
      } else {
        assert done + [] == done;
      }
      i := i + 1;
    }
    assert watched[..i] == watched;
  }

  // ---------------------------------------------------------------- suggestions

  /** `!watchedIds.includes(m.id)`: strict equality, so a string id never matches a numeric one. */
  function NotWatched(ms: seq<Movie>, watchedIds: seq<Value>): seq<Movie>
  {
    Filter(ms, (m: Movie) => Num(m.id as real) !in watchedIds)
  }

  /** The suggestions one genre adds: its first discover page, unwatched, at most six. */
  function GenrePicks(g: GenreScore, discover: int -> Option<seq<Movie>>, watchedIds: seq<Value>): seq<Movie>
  {
    match discover(g.id)
    case None => []
    case Some(ms) => Take(NotWatched(ms, watchedIds), PerGenre)
  }

  /** `interestBased` before de-duplication: the genres' picks, genre by genre. */
  function InterestRaw(genres: seq<GenreScore>, discover: int -> Option<seq<Movie>>, watchedIds: seq<Value>)
    : seq<Movie>
  {
    if genres == [] then []
    else InterestRaw(genres[..|genres| - 1], discover, watchedIds) + GenrePicks(genres[|genres| - 1], discover, watchedIds)
  }

  /** One discover call per genre, in order. */
  function DiscoverCalls(genres: seq<GenreScore>): seq<CatalogCall>
  {
    if genres == [] then []
    else DiscoverCalls(genres[..|genres| - 1]) + [Discover(genres[|genres| - 1].id)]
  }

  /** The movie the "because you watched" list is for: the first top-rated movie with a truthy id. */
  predicate HasSeed(topMovies: seq<Movie>)
  {
    |topMovies| > 0 && topMovies[0].id != 0
  }

  /** `becauseYouWatched`: the seed's recommendations, unwatched, at most twelve. */
  function Because(topMovies: seq<Movie>, similar: int -> Option<seq<Movie>>, watchedIds: seq<Value>): seq<Movie>
  {
    if !HasSeed(topMovies) then []
    else
      match similar(topMovies[0].id)
      case None => []
      case Some(ms) => Take(NotWatched(ms, watchedIds), BecauseLimit)
  }

  function MovieId(m: Movie): int
  {
    m.id
  }

  /** Whether the call ends early with the empty shape. */
  predicate EndsEmpty(userId: Value, watched: Option<seq<Doc>>, details: Value -> Option<Movie>)
  {
    || !Truthy(userId)
    || watched.None?
    || (|TopGenres(watched.value, details, TopCount)| == 0 && |TopRated(watched.value, details, TopCount)| == 0)
  }

  /** `getForYouRecommendations(userId)` on the given query result and catalog. */
  function ForYouOf(
    userId: Value, watched: Option<seq<Doc>>, details: Value -> Option<Movie>,
    discover: int -> Option<seq<Movie>>, similar: int -> Option<seq<Movie>>): ForYou
  {
    if EndsEmpty(userId, watched, details) then Empty
    else
      var w := watched.value;
      var topGenres := TopGenres(w, details, TopCount);
      var topMovies := TopRated(w, details, TopCount);
      var ids := WatchedIds(w);
      ForYou(
        Dedup(InterestRaw(topGenres, discover, ids), MovieId),
        Because(topMovies, similar, ids),
        if |topMovies| > 0 then Some(topMovies[0]) else None,
        Some(topGenres))
  }

  /** The discover and recommendations calls `getForYouRecommendations` makes, in order. */
  function ForYouCalls(userId: Value, watched: Option<seq<Doc>>, details: Value -> Option<Movie>): seq<CatalogCall>
  {
    if EndsEmpty(userId, watched, details) then []
    else
      var topMovies := TopRated(watched.value, details, TopCount);
      DiscoverCalls(TopGenres(watched.value, details, TopCount))
        + (if HasSeed(topMovies) then [Similar(topMovies[0].id)] else [])
  }

  /** The per-genre loop: one discover call per genre, and its unwatched picks appended. */
  method GenreSuggestions(topGenres: seq<GenreScore>, discover: int -> Option<seq<Movie>>, watchedIds: seq<Value>)
    returns (interestBased: seq<Movie>, calls: seq<CatalogCall>)
    ensures interestBased == InterestRaw(topGenres, discover, watchedIds)
    ensures calls == DiscoverCalls(topGenres)
  {
    interestBased := [];
    calls := [];
    var i := 0;
    while i < |topGenres|
      invariant 0 <= i <= |topGenres|
      invariant interestBased == InterestRaw(topGenres[..i], discover, watchedIds)
      invariant calls == DiscoverCalls(topGenres[..i])
    {
      var g := topGenres[i];
      var next := topGenres[..i + 1];
      assert next[..i] == topGenres[..i] && next[i] == g;
      calls := calls + [Discover(g.id)];
      var res := discover(g.id);
      if res.Some? {
        interestBased := interestBased + Take(NotWatched(res.value, watchedIds), PerGenre);
      }
      i := i + 1;
    }
    assert topGenres[..i] == topGenres;
  }

  /** The "because you watched" step: one similar-titles call for the seed movie, if there is one. */
  method BecauseYouWatched(topMovies: seq<Movie>, similar: int -> Option<seq<Movie>>, watchedIds: seq<Value>)
    returns (b: seq<Movie>, call: seq<CatalogCall>)
    ensures b == Because(topMovies, similar, watchedIds)
    ensures call == if HasSeed(topMovies) then [Similar(topMovies[0].id)] else []
  {
    b, call := [], [];
    if |topMovies| > 0 && topMovies[0].id != 0 {
      call := [Similar(topMovies[0].id)];
      var rec := similar(topMovies[0].id);
      if rec.Some? {
        b := Take(NotWatched(rec.value, watchedIds), BecauseLimit);
      }
    }
  }

  /** `ForYouOf` and `ForYouCalls` past the early return. */
  lemma ForYouNonEmpty(
    userId: Value, watched: Option<seq<Doc>>, details: Value -> Option<Movie>,
    discover: int -> Option<seq<Movie>>, similar: int -> Option<seq<Movie>>)
    requires Truthy(userId) && watched.Some?
    requires |TopGenres(watched.value, details, TopCount)| > 0 || |TopRated(watched.value, details, TopCount)| > 0
    ensures var w := watched.value;
      var topGenres := TopGenres(w, details, TopCount);
      var topMovies := TopRated(w, details, TopCount);
      var ids := WatchedIds(w);
      && ForYouOf(userId, watched, details, discover, similar) == ForYou(
        Dedup(InterestRaw(topGenres, discover, ids), MovieId),
        Because(topMovies, similar, ids),
        if |topMovies| > 0 then Some(topMovies[0]) else None,
        Some(topGenres))
      && ForYouCalls(userId, watched, details) ==
        DiscoverCalls(topGenres) + (if HasSeed(topMovies) then [Similar(topMovies[0].id)] else [])
  {
  }

  /**
   * `getForYouRecommendations`: the three store reads, then one discover call per top
   * genre, de-duplication of the genre suggestions, and the recommendations for the top
   * movie. `calls` lists the discover and recommendations calls made.
   */
  method GetForYouRecommendations(
    userId: Value, watched: Option<seq<Doc>>, details: Value -> Option<Movie>,
    discover: int -> Option<seq<Movie>>, similar: int -> Option<seq<Movie>>)
    returns (r: ForYou, calls: seq<CatalogCall>)
    ensures r == ForYouOf(userId, watched, details, discover, similar)
    ensures calls == ForYouCalls(userId, watched, details)
  {
    if !Truthy(userId) || watched.None? {
      return Empty, [];
    }
    var w := watched.value;
    var topGenres, _ := TopGenresForUser(w, details, TopCount);
    var topMovies := TopRatedMovies(w, details, TopCount);
    var watchedIds := WatchedMovieIds(w);
    if |topGenres| == 0 && |topMovies| == 0 {
      assert EndsEmpty(userId, watched, details);
      return Empty, [];
    }
    var interestBased, becauseYouWatched, seedCall;
    interestBased, calls := GenreSuggestions(topGenres, discover, watchedIds);
    interestBased := DedupByKey(interestBased, MovieId);
    becauseYouWatched, seedCall := BecauseYouWatched(topMovies, similar, watchedIds);
    calls := calls + seedCall;
    ForYouNonEmpty(userId, watched, details, discover, similar);
    r := ForYou(interestBased, becauseYouWatched, if |topMovies| > 0 then Some(topMovies[0]) else None, Some(topGenres));
  }

  // ---------------------------------------------------------------- properties of the result

  /** What `NotWatched` keeps: movies of the list whose numeric id is not a watched id. */
  lemma NotWatchedMeaning(ms: seq<Movie>, watchedIds: seq<Value>)
    ensures forall m :: m in NotWatched(ms, watchedIds) ==> m in ms && Num(m.id as real) !in watchedIds
    ensures forall m :: m in ms && Num(m.id as real) !in watchedIds ==> m in NotWatched(ms, watchedIds)
  {
    var r := NotWatched(ms, watchedIds);
    forall m | m in r
      ensures m in ms && Num(m.id as real) !in watchedIds
    {
      var i :| 0 <= i < |r| && r[i] == m;
    }
    forall m | m in ms && Num(m.id as real) !in watchedIds
      ensures m in r
    {
      var i :| 0 <= i < |ms| && ms[i] == m;
    }
  }

  /**
   * One genre's picks: nothing when its discover call fails, else the first six unwatched
   * movies of its page (all of them when there are fewer), in page order.
   */
  lemma GenrePicksMeaning(g: GenreScore, discover: int -> Option<seq<Movie>>, watchedIds: seq<Value>)
    ensures var picks := GenrePicks(g, discover, watchedIds);
      && |picks| <= PerGenre
      && (discover(g.id).None? ==> picks == [])
      && (discover(g.id).Some? ==>
            var unseen := NotWatched(discover(g.id).value, watchedIds);
            && |picks| == (if PerGenre < |unseen| then PerGenre else |unseen|)
            && picks == unseen[..|picks|]
            && forall m :: m in picks ==> m in discover(g.id).value && Num(m.id as real) !in watchedIds)
  {
    match discover(g.id)
    case None =>
    case Some(ms) =>
      NotWatchedMeaning(ms, watchedIds);
      var picks := GenrePicks(g, discover, watchedIds);
      assert forall m :: m in picks ==> m in NotWatched(ms, watchedIds);
  }

  /** The genre suggestions hold at most six movies per genre, none of them watched. */
  lemma {:induction false} InterestRawMeaning(genres: seq<GenreScore>, discover: int -> Option<seq<Movie>>, watchedIds: seq<Value>)
    ensures var raw := InterestRaw(genres, discover, watchedIds);
      && |raw| <= PerGenre * |genres|
      && forall m :: m in raw ==> Num(m.id as real) !in watchedIds
  {
    if genres != [] {
      var init := genres[..|genres| - 1];
      var g := genres[|genres| - 1];
      InterestRawMeaning(init, discover, watchedIds);
      var picks := GenrePicks(g, discover, watchedIds);
      match discover(g.id)
      case None =>
      case Some(ms) =>
        NotWatchedMeaning(ms, watchedIds);
        assert forall m :: m in picks ==> m in NotWatched(ms, watchedIds);
      assert forall m :: m in InterestRaw(genres, discover, watchedIds) ==>
        m in InterestRaw(init, discover, watchedIds) || m in picks;
    }
  }

  /** Each genre's picks, in the genres' order: an accessor whose meaning `InterestRawByGenre` states. */
  function PicksByGenre(genres: seq<GenreScore>, discover: int -> Option<seq<Movie>>, watchedIds: seq<Value>): (r: seq<seq<Movie>>)
    ensures |r| == |genres|
    ensures forall j :: 0 <= j < |genres| ==> r[j] == GenrePicks(genres[j], discover, watchedIds)
  {
    seq(|genres|, j requires 0 <= j < |genres| => GenrePicks(genres[j], discover, watchedIds))
  }

  /**
   * The genre suggestions are the genres' picks one after the other, genre by genre: a movie
   * is among them exactly when it is among some genre's picks.
   */
  lemma {:induction false} InterestRawByGenre(genres: seq<GenreScore>, discover: int -> Option<seq<Movie>>, watchedIds: seq<Value>)
    ensures InterestRaw(genres, discover, watchedIds) == Concat(PicksByGenre(genres, discover, watchedIds))
    ensures forall m :: m in InterestRaw(genres, discover, watchedIds) <==>
      exists j :: 0 <= j < |genres| && m in GenrePicks(genres[j], discover, watchedIds)
  {
    var parts := PicksByGenre(genres, discover, watchedIds);
    if genres != [] {
      var init := genres[..|genres| - 1];
      InterestRawByGenre(init, discover, watchedIds);
      assert PicksByGenre(init, discover, watchedIds) == parts[..|parts| - 1];
    }
    forall m
      ensures m in Concat(parts) <==> exists j :: 0 <= j < |genres| && m in GenrePicks(genres[j], discover, watchedIds)
    {
      ConcatMembers(parts, m);
    }
  }

  /** A watched id, as the exclusion compares it, from the records' point of view. */
  predicate WatchedIn(w: seq<Doc>, m: Movie)
  {
    exists i :: 0 <= i < |w| && Truthy(TmdbId(w[i])) && TmdbId(w[i]) == Num(m.id as real)
  }

  /** Neither suggestion list holds a movie whose id, as a number, is the id of a watched record. */
  lemma ForYouUnwatched(
    userId: Value, watched: Option<seq<Doc>>, details: Value -> Option<Movie>,
    discover: int -> Option<seq<Movie>>, similar: int -> Option<seq<Movie>>)
    requires !EndsEmpty(userId, watched, details)
    ensures var r := ForYouOf(userId, watched, details, discover, similar);
      && (forall m :: m in r.interestBased ==> !WatchedIn(watched.value, m))
      && (forall m :: m in r.becauseYouWatched ==> !WatchedIn(watched.value, m))
  {
    var w := watched.value;
    var ids := WatchedIds(w);
    ForYouNonEmpty(userId, watched, details, discover, similar);
    WatchedIdsMeaning(w);
    InterestUnwatched(TopGenres(w, details, TopCount), discover, ids);
    BecauseUnwatched(TopRated(w, details, TopCount), similar, ids);
  }

  /** The de-duplicated genre suggestions hold no watched id. */
  lemma InterestUnwatched(genres: seq<GenreScore>, discover: int -> Option<seq<Movie>>, ids: seq<Value>)
    ensures forall m :: m in Dedup(InterestRaw(genres, discover, ids), MovieId) ==> Num(m.id as real) !in ids
  {
    var raw := InterestRaw(genres, discover, ids);
    InterestRawMeaning(genres, discover, ids);
    DedupMeaning(raw, MovieId);
    SubseqElements(Dedup(raw, MovieId), raw);
  }

  /** The "because you watched" list holds no watched id. */
  lemma BecauseUnwatched(topMovies: seq<Movie>, similar: int -> Option<seq<Movie>>, ids: seq<Value>)
    ensures forall m :: m in Because(topMovies, similar, ids) ==> Num(m.id as real) !in ids
  {
    if HasSeed(topMovies) && similar(topMovies[0].id).Some? {
      var ms := similar(topMovies[0].id).value;
      NotWatchedMeaning(ms, ids);
      forall m | m in Because(topMovies, similar, ids)
        ensures Num(m.id as real) !in ids
      {
        assert m in NotWatched(ms, ids);
      }
    }
  }

  /**
   * `interestBased` has no two movies with the same id and keeps, in order, the first
   * suggestion of each id; the lists hold at most 18 and 12 movies.
   */
  lemma ForYouShape(
    userId: Value, watched: Option<seq<Doc>>, details: Value -> Option<Movie>,
    discover: int -> Option<seq<Movie>>, similar: int -> Option<seq<Movie>>)
    requires !EndsEmpty(userId, watched, details)
    ensures var r := ForYouOf(userId, watched, details, discover, similar);
      var w := watched.value;
      var raw := InterestRaw(TopGenres(w, details, TopCount), discover, WatchedIds(w));
      && DistinctKeys(r.interestBased, MovieId)
      && IsSubseq(r.interestBased, raw)
      && (forall m :: m in r.interestBased ==> m.id in Keys(raw, MovieId) && m == FirstWithKey(raw, MovieId, m.id))
      && Keys(r.interestBased, MovieId) == Keys(raw, MovieId)
      && |r.interestBased| <= PerGenre * TopCount
      && |r.becauseYouWatched| <= BecauseLimit
  {
    var w := watched.value;
    var ids := WatchedIds(w);
    var topGenres := TopGenres(w, details, TopCount);
    var raw := InterestRaw(topGenres, discover, ids);
    var r := ForYouOf(userId, watched, details, discover, similar);
    assert r.interestBased == Dedup(raw, MovieId);
    InterestRawMeaning(topGenres, discover, ids);
    DedupMeaning(raw, MovieId);
    forall m | m in r.interestBased ensures m == FirstWithKey(raw, MovieId, m.id) {
      assert MovieId(m) == m.id;
    }
  }

  /** The empty shape comes exactly from a falsy user id, a failed store read, or no genre and no movie. */
  lemma ForYouEmpty(
    userId: Value, watched: Option<seq<Doc>>, details: Value -> Option<Movie>,
    discover: int -> Option<seq<Movie>>, similar: int -> Option<seq<Movie>>)
    ensures var r := ForYouOf(userId, watched, details, discover, similar);
      && (r.topGenres.None? <==> EndsEmpty(userId, watched, details))
      && (EndsEmpty(userId, watched, details) ==> r == Empty && ForYouCalls(userId, watched, details) == [])
      && (r.topMovie.None? || r.topMovie.value.id == 0 ==> r.becauseYouWatched == [])
  {
  }

  /** Records without an id add nothing to the tally. */
  lemma {:induction false} TallyWithoutIds(records: seq<Doc>, details: Value -> Option<Movie>)
    requires forall i :: 0 <= i < |records| ==> !Truthy(TmdbId(records[i]))
    ensures TallyOf(records, details) == EmptyTally
  {
    if records != [] {
      TallyWithoutIds(records[..|records| - 1], details);
    }
  }

  /**
   * A user none of whose first 200 watched records has an id gets the empty shape, and no
   * discover or recommendations call is made.
   */
  lemma NoIdsNoCalls(
    userId: Value, w: seq<Doc>, details: Value -> Option<Movie>,
    discover: int -> Option<seq<Movie>>, similar: int -> Option<seq<Movie>>)
    requires forall i :: 0 <= i < |Recent(w)| ==> !Truthy(TmdbId(Recent(w)[i]))
    ensures ForYouOf(userId, Some(w), details, discover, similar) == Empty
    ensures ForYouCalls(userId, Some(w), details) == []
  {
    var recs := Recent(w);
    TallyWithoutIds(recs, details);
    assert ScoresOf(EmptyTally) == [];
    FilterNone(recs, IsRated);
    FilterNone(recs, IsUnrated);
    assert Picks(w, TopCount) == [];
  }

  /**
   * Ids stored as strings exclude nothing: when every truthy record id is a string, the
   * exclusion filter keeps every catalog movie, including the ones the user has watched.
   */
  lemma StringIdsExcludeNothing(w: seq<Doc>, ms: seq<Movie>)
    requires forall i :: 0 <= i < |w| && Truthy(TmdbId(w[i])) ==> TmdbId(w[i]).Str?
    ensures NotWatched(ms, WatchedIds(w)) == ms
  {
    WatchedIdsMeaning(w);
    FilterAll(ms, (m: Movie) => Num(m.id as real) !in WatchedIds(w));
  }
}
