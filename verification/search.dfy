/**
 * The search page's logic: reading the genre filter from the address, cleaning the typed
 * query, which results pass the filters, merging a loaded page into the list with
 * deduplication, and which filters are written back to the address.
 *
 * A result's release year (`new Date(release_date || first_air_date || "").getFullYear()`)
 * is given as `year`, `None` standing for NaN. Filter numbers are exact reals.
 */
module Search {
  import opened Wrappers
  import opened JsValues
  import opened Seqs
  import Tmdb

  const DefaultYearMin: real := 1990.0
  const DefaultRatingMin: real := 5.0
  const QueryLimit: nat := 100

  /** One catalog result, with the fields the page reads. */
  datatype SearchItem = SearchItem(
    id: Value, mediaType: Value, title: Value, name: Value,
    year: Option<int>, voteAverage: Value, genreIds: seq<real>)

  /** The filter state: selected genres, year bounds, and the minimum rating (`None` is NaN). */
  datatype Filters = Filters(genres: seq<real>, yearMin: real, yearMax: real, rating: Option<real>)

  // ---------------------------------------------------------------- reading the address

  /** `Number` of each part, NaNs dropped, in order. */
  function Numbers(parts: seq<string>): (r: seq<real>)
    ensures |r| <= |parts|
  {
    if parts == [] then []
    else
      match ParseNumber(parts[0])
      case Some(x) => [x] + Numbers(parts[1..])
      case None => Numbers(parts[1..])
  }

  /** The `genres` parameter (empty when absent) as the selected genre ids. */
  function ParseGenres(g: string): seq<real>
  {
    if g == "" then [] else Numbers(Split(g, ','))
  }

  /** The text of each id, as `join(",")` writes numbers. */
  function IdTexts(ids: seq<int>): (r: seq<string>)
    ensures |r| == |ids|
    ensures forall i :: 0 <= i < |ids| ==> r[i] == IntText(ids[i])
  {
    seq(|ids|, i requires 0 <= i < |ids| => IntText(ids[i]))
  }

  function Reals(ids: seq<int>): (r: seq<real>)
    ensures |r| == |ids|
    ensures forall i :: 0 <= i < |ids| ==> r[i] == ids[i] as real
  {
    seq(|ids|, i requires 0 <= i < |ids| => ids[i] as real)
  }

  /** Reading the numbers back from their texts. */
  lemma {:induction false} NumbersOfTexts(ids: seq<int>)
    ensures Numbers(IdTexts(ids)) == Reals(ids)
  {
    if ids != [] {
      IdTextsCons(ids);
      NumberOfIntText(ids[0]);
      NumbersCons(IntText(ids[0]), IdTexts(ids[1..]), ids[0] as real);
      NumbersOfTexts(ids[1..]);
      RealsCons(ids);
    }
  }

  lemma IdTextsCons(ids: seq<int>)
    requires ids != []
    ensures IdTexts(ids) == [IntText(ids[0])] + IdTexts(ids[1..])
  {
    assert IdTexts(ids)[1..] == IdTexts(ids[1..]);
  }

  lemma RealsCons(ids: seq<int>)
    requires ids != []
    ensures Reals(ids) == [ids[0] as real] + Reals(ids[1..])
  {
    assert Reals(ids)[1..] == Reals(ids[1..]);
  }

  /** A part that reads as a number contributes it in front. */
  lemma NumbersCons(p: string, rest: seq<string>, x: real)
    requires ParseNumber(p) == Some(x)
    ensures Numbers([p] + rest) == [x] + Numbers(rest)
  {
    assert ([p] + rest)[0] == p && ([p] + rest)[1..] == rest;
  }

  /** The text of an integer holds no comma. */
  lemma NoComma(i: int)
    ensures ',' !in IntText(i)
  {
    var t := IntText(i);
    var n := NatText(if i < 0 then -i else i);
    assert AllDigits(n);
    assert t == (if i < 0 then "-" else "") + n;
    forall k | 0 <= k < |t| ensures t[k] != ',' {
      if i < 0 && k > 0 {
        assert t[k] == n[k - 1];
      } else if i >= 0 {
        assert t[k] == n[k];
      }
    }
  }

  /** Genre ids written to the address with `join(",")` are read back as the same ids. */
  lemma GenresRoundTrip(ids: seq<int>)
    ensures ParseGenres(Join(IdTexts(ids), ',')) == Reals(ids)
  {
    if ids != [] {
      forall p | p in IdTexts(ids) ensures ',' !in p {
        var i :| 0 <= i < |ids| && IdTexts(ids)[i] == p;
        NoComma(ids[i]);
      }
      SplitJoin(IdTexts(ids), ',');
      NumbersOfTexts(ids);
      var parts := IdTexts(ids);
      assert |parts[0]| > 0 by {
        assert parts[0] == IntText(ids[0]);
      }
      if |parts| > 1 {
        assert Join(parts, ',') == parts[0] + [','] + Join(parts[1..], ',');
      }
    }
  }

  /** A part that is empty reads as 0, so a trailing comma adds genre 0. */
  lemma TrailingComma(g: string)
    requires g != ""
    ensures ParseGenres(g + ",") == ParseGenres(g) + [0.0]
  {
    SplitSeparatorLast(g, ',');
    NumbersAppend(Split(g, ','), [""]);
    assert ParseNumber("") == Some(0.0);
    assert Numbers([""]) == [0.0];
  }

  /** Reading the numbers of two lists of parts one after the other. */
  lemma {:induction false} NumbersAppend(a: seq<string>, b: seq<string>)
    ensures Numbers(a + b) == Numbers(a) + Numbers(b)
  {
    if a != [] {
      assert (a + b)[0] == a[0] && (a + b)[1..] == a[1..] + b;
      NumbersAppend(a[1..], b);
    } else {
      assert a + b == b;
    }
  }

  /** The debounced query: trimmed and cut to 100 characters. */
  function CleanQuery(query: string): (r: string)
    ensures |r| <= QueryLimit
    ensures |r| <= |Trim(query)| && r == Trim(query)[..|r|]
    ensures |Trim(query)| <= QueryLimit ==> r == Trim(query)
  {
    Take(Trim(query), QueryLimit)
  }

  // ---------------------------------------------------------------- the result filter

  /** `media_type`, else `movie` with a title, else `tv` with a name, else `person`. */
  function MediaTypeOf(it: SearchItem): (r: Value)
    ensures Truthy(it.mediaType) ==> r == it.mediaType
    ensures !Truthy(it.mediaType) ==> r in {Str("movie"), Str("tv"), Str("person")}
  {
    Or(it.mediaType, if Truthy(it.title) then Str("movie") else if Truthy(it.name) then Str("tv") else Str("person"))
  }

  /** `typeof vote_average === "number" ? vote_average : 0`. */
  function Votes(it: SearchItem): real
  {
    if it.voteAverage.Num? then it.voteAverage.n else 0.0
  }

  predicate MatchGenre(it: SearchItem, f: Filters)
  {
    f.genres == [] || exists i :: 0 <= i < |f.genres| && f.genres[i] in it.genreIds
  }

  /** `!year || (year >= yearMin && year <= yearMax)`: an unknown year and year 0 pass. */
  predicate MatchYear(it: SearchItem, f: Filters)
  {
    it.year.None? || it.year.value == 0 || (f.yearMin <= it.year.value as real <= f.yearMax)
  }

  /** `votes >= rating[0]`; nothing is at least NaN. */
  predicate MatchRating(it: SearchItem, f: Filters)
  {
    f.rating.Some? && Votes(it) >= f.rating.value
  }

  /** The filter callback. */
  predicate Passes(it: SearchItem, f: Filters)
  {
    var mediaType := MediaTypeOf(it);
    if mediaType == Str("person") then false
    else if f.genres != [] && mediaType != Str("movie") then false
    else MatchGenre(it, f) && MatchYear(it, f) && MatchRating(it, f)
  }

  /**
   * What passes, in both directions: no person; with genres selected, exactly the movies
   * sharing a genre; the year and rating checks.
   */
  lemma PassesMeaning(it: SearchItem, f: Filters)
    ensures Passes(it, f) ==> MediaTypeOf(it) != Str("person")
    ensures Passes(it, f) && f.genres != [] ==>
      MediaTypeOf(it) == Str("movie") && exists g :: g in f.genres && g in it.genreIds
    ensures Passes(it, f) ==> f.rating.Some? && Votes(it) >= f.rating.value
    ensures Passes(it, f) && it.year.Some? && it.year.value != 0 ==> f.yearMin <= it.year.value as real <= f.yearMax
    ensures f.genres == [] && MediaTypeOf(it) != Str("person") && MatchYear(it, f) && MatchRating(it, f) ==> Passes(it, f)
    ensures (f.genres != [] && MediaTypeOf(it) == Str("movie") && (exists g :: g in f.genres && g in it.genreIds)
             && MatchYear(it, f) && MatchRating(it, f)) ==> Passes(it, f)
  {
    if f.genres != [] && exists g :: g in f.genres && g in it.genreIds {
      var g :| g in f.genres && g in it.genreIds;
      var i :| 0 <= i < |f.genres| && f.genres[i] == g;
      assert MatchGenre(it, f);
    }
    if Passes(it, f) && f.genres != [] {
      assert MatchGenre(it, f);
      var i :| 0 <= i < |f.genres| && f.genres[i] in it.genreIds;
      var g := f.genres[i];
      assert g in f.genres && g in it.genreIds;
      assert exists g :: g in f.genres && g in it.genreIds;
    }
    if Passes(it, f) {
      assert MatchYear(it, f) && MatchRating(it, f);
    }
  }

  /** A result without a media type, title or name is a person and never shown. */
  lemma UntitledIsPerson(it: SearchItem, f: Filters)
    requires !Truthy(it.mediaType) && !Truthy(it.title) && !Truthy(it.name)
    ensures !Passes(it, f)
  {
  }

  // ---------------------------------------------------------------- merging pages

  /** `${type}-${id}`. */
  function ItemKey(it: SearchItem): string
  {
    ValueText(MediaTypeOf(it)) + "-" + ValueText(it.id)
  }

  /** The list after loading page `page`: page 1 replaces, later pages append; then dedup by key. */
  function Merged(prev: seq<SearchItem>, filtered: seq<SearchItem>, page: int): seq<SearchItem>
  {
    Dedup(if page == 1 then filtered else prev + filtered, ItemKey)
  }

  /**
   * One load of the result list: filter the page's results (`None` when the request
   * throws, which empties the list), then merge with the previous list.
   */
  method LoadPage(prev: seq<SearchItem>, page: int, response: Option<seq<SearchItem>>, f: Filters)
    returns (items: seq<SearchItem>)
    ensures response.None? ==> items == []
    ensures response.Some? ==>
      items == Merged(prev, Filter(response.value, (it: SearchItem) => Passes(it, f)), page)
  {
    if response.None? {
      return [];
    }
    var filtered := Filter(response.value, (it: SearchItem) => Passes(it, f));
    var merged := if page == 1 then filtered else prev + filtered;
    items := DedupByKey(merged, ItemKey);
  }

  /**
   * After a merge no two items share a key, each key of the combined list keeps its first
   * item, and the order is that of the combined list.
   */
  lemma MergedMeaning(prev: seq<SearchItem>, filtered: seq<SearchItem>, page: int)
    ensures var all := if page == 1 then filtered else prev + filtered;
      var r := Merged(prev, filtered, page);
      && DistinctKeys(r, ItemKey)
      && IsSubseq(r, all)
      && Keys(r, ItemKey) == Keys(all, ItemKey)
      && forall x :: x in r ==> x == FirstWithKey(all, ItemKey, ItemKey(x))
  {
    var all := if page == 1 then filtered else prev + filtered;
    DedupMeaning(all, ItemKey);
  }

  /** A later page keeps every earlier item, in place, when the earlier list had distinct keys. */
  lemma {:induction false} LaterPageKeepsPrefix(prev: seq<SearchItem>, filtered: seq<SearchItem>, page: int)
    requires page != 1 && DistinctKeys(prev, ItemKey)
    ensures |prev| <= |Merged(prev, filtered, page)|
    ensures Merged(prev, filtered, page)[..|prev|] == prev
    decreases |filtered|
  {
    if filtered == [] {
      assert prev + filtered == prev;
      DedupDistinct(prev);
    } else {
      var init := filtered[..|filtered| - 1];
      var x := filtered[|filtered| - 1];
      assert prev + filtered == (prev + init) + [x];
      DedupSnoc(prev + init, x, ItemKey);
      LaterPageKeepsPrefix(prev, init, page);
    }
  }

  /** A list whose keys are already distinct is its own dedup. */
  lemma {:induction false} DedupDistinct(s: seq<SearchItem>)
    requires DistinctKeys(s, ItemKey)
    ensures Dedup(s, ItemKey) == s
    decreases |s|
  {
    if s != [] {
      var init := s[..|s| - 1];
      var x := s[|s| - 1];
      assert s == init + [x];
      assert DistinctKeys(init, ItemKey) by {
        forall i, j | 0 <= i < j < |init| ensures ItemKey(init[i]) != ItemKey(init[j]) {
          assert init[i] == s[i] && init[j] == s[j];
        }
      }
      assert ItemKey(x) !in Keys(init, ItemKey) by {
        forall y | y in init ensures ItemKey(y) != ItemKey(x) {
          var i :| 0 <= i < |init| && init[i] == y;
          assert s[i] == y;
        }
      }
      DedupSnoc(init, x, ItemKey);
      DedupDistinct(init);
    }
  }

  // ---------------------------------------------------------------- writing the address

  /**
   * The address parameters, in order: `q` when the query is non-empty, `genres` when any is
   * selected, and `ymin`, `ymax`, `rating` only when they differ from their defaults. The
   * current year is `defaultYearMax`.
   */
  function UrlParams(debounced: string, f: Filters, defaultYearMax: real): (q: Tmdb.Query)
    ensures DistinctKeys(q, Tmdb.Name)
  {
    var q0: Tmdb.Query := [];
    var q1 := SetIf(q0, debounced != "", "q", debounced);
    var q2 := SetIf(q1, f.genres != [], "genres", Join(GenreTexts(f.genres), ','));
    var q3 := SetIf(q2, f.yearMin != DefaultYearMin, "ymin", NumberText(f.yearMin));
    var q4 := SetIf(q3, f.yearMax != defaultYearMax, "ymax", NumberText(f.yearMax));
    SetIf(q4, f.rating != Some(DefaultRatingMin), "rating", RatingText(f.rating))
  }

  /** `if (cond) params.set(k, v)`. */
  function SetIf(q: Tmdb.Query, cond: bool, k: string, v: string): (r: Tmdb.Query)
    requires DistinctKeys(q, Tmdb.Name)
    ensures DistinctKeys(r, Tmdb.Name)
  {
    if cond then
      Tmdb.SetParamDistinct(q, k, v);
      Tmdb.SetParam(q, k, v)
    else q
  }

  function GenreTexts(genres: seq<real>): (r: seq<string>)
    ensures |r| == |genres|
  {
    seq(|genres|, i requires 0 <= i < |genres| => NumberText(genres[i]))
  }

  /** `String(rating[0])`. */
  function RatingText(rating: Option<real>): string
  {
    if rating.Some? then NumberText(rating.value) else "NaN"
  }

  /** A conditional `set` gives the name its value when the condition holds and leaves every other name alone. */
  lemma SetIfGet(q: Tmdb.Query, cond: bool, k: string, v: string, k2: string)
    requires DistinctKeys(q, Tmdb.Name)
    ensures Tmdb.Get(SetIf(q, cond, k, v), k2) == if cond && k2 == k then Some(v) else Tmdb.Get(q, k2)
  {
    if cond {
      Tmdb.SetParamGet(q, k, v, k2);
    }
  }

  /** Each parameter is written exactly when it differs from its default, with its text, and at most once. */
  lemma UrlParamsMeaning(debounced: string, f: Filters, defaultYearMax: real)
    ensures var q := UrlParams(debounced, f, defaultYearMax);
      && (Tmdb.Get(q, "q") == if debounced != "" then Some(debounced) else None)
      && (Tmdb.Get(q, "genres") == if f.genres != [] then Some(Join(GenreTexts(f.genres), ',')) else None)
      && (Tmdb.Get(q, "ymin") == if f.yearMin != DefaultYearMin then Some(NumberText(f.yearMin)) else None)
      && (Tmdb.Get(q, "ymax") == if f.yearMax != defaultYearMax then Some(NumberText(f.yearMax)) else None)
      && (Tmdb.Get(q, "rating") == if f.rating != Some(DefaultRatingMin) then Some(RatingText(f.rating)) else None)
      && DistinctKeys(q, Tmdb.Name)
  {
    UrlParamGet(debounced, f, defaultYearMax, "q");
    UrlParamGet(debounced, f, defaultYearMax, "genres");
    UrlParamGet(debounced, f, defaultYearMax, "ymin");
    UrlParamGet(debounced, f, defaultYearMax, "ymax");
    UrlParamGet(debounced, f, defaultYearMax, "rating");
  }

  /** The value of one name in the address parameters: the last `set` of that name that ran. */
  lemma UrlParamGet(debounced: string, f: Filters, defaultYearMax: real, k2: string)
    ensures Tmdb.Get(UrlParams(debounced, f, defaultYearMax), k2) ==
      if f.rating != Some(DefaultRatingMin) && k2 == "rating" then Some(RatingText(f.rating))
      else if f.yearMax != defaultYearMax && k2 == "ymax" then Some(NumberText(f.yearMax))
      else if f.yearMin != DefaultYearMin && k2 == "ymin" then Some(NumberText(f.yearMin))
      else if f.genres != [] && k2 == "genres" then Some(Join(GenreTexts(f.genres), ','))
      else if debounced != "" && k2 == "q" then Some(debounced)
      else None
  {
    var q0: Tmdb.Query := [];
    var q1 := SetIf(q0, debounced != "", "q", debounced);
    var q2 := SetIf(q1, f.genres != [], "genres", Join(GenreTexts(f.genres), ','));
    var q3 := SetIf(q2, f.yearMin != DefaultYearMin, "ymin", NumberText(f.yearMin));
    var q4 := SetIf(q3, f.yearMax != defaultYearMax, "ymax", NumberText(f.yearMax));
    SetIfGet(q0, debounced != "", "q", debounced, k2);
    SetIfGet(q1, f.genres != [], "genres", Join(GenreTexts(f.genres), ','), k2);
    SetIfGet(q2, f.yearMin != DefaultYearMin, "ymin", NumberText(f.yearMin), k2);
    SetIfGet(q3, f.yearMax != defaultYearMax, "ymax", NumberText(f.yearMax), k2);
    SetIfGet(q4, f.rating != Some(DefaultRatingMin), "rating", RatingText(f.rating), k2);
  }
}
