/**
 * The pure helpers of the TMDb service layer: query parameters of a request URL, the genre
 * tables, genre-name lookup, image URLs and the configuration check.
 *
 * The API key comes from the environment; it is the parameter `apiKey` (`None` when unset).
 */
module Tmdb {
  import opened Wrappers
  import opened JsValues
  import opened Seqs

  const BaseUrl: string := "https://api.themoviedb.org/3"
  const ImageBase: string := "https://image.tmdb.org/t/p/"
  const DefaultLanguage: string := "en-US"
  const DefaultImageSize: string := "w500"
  const MissingKeyMessage: string := "Missing NEXT_PUBLIC_TMDB_API_KEY environment variable for TMDb."

  // ---------------------------------------------------------------- query parameters

  /** A query string as an ordered list of name/value pairs. */
  type Query = seq<(string, string)>

  /** The value of the first pair named `k`. */
  function Get(q: Query, k: string): Option<string>
  {
    if q == [] then None
    else if q[0].0 == k then Some(q[0].1)
    else Get(q[1..], k)
  }

  /** The pairs not named `k`, in order. */
  function DropName(q: Query, k: string): (r: Query)
    ensures Get(r, k) == None
    ensures |r| <= |q|
  {
    if q == [] then []
    else if q[0].0 == k then DropName(q[1..], k)
    else [q[0]] + DropName(q[1..], k)
  }

  /**
   * `URLSearchParams.set`: the first pair named `k` takes the value `v` and any later pair of
   * that name is dropped; when there is none, the pair is appended.
   */
  function SetParam(q: Query, k: string, v: string): (r: Query)
  {
    if q == [] then [(k, v)]
    else if q[0].0 == k then [(k, v)] + DropName(q[1..], k)
    else [q[0]] + SetParam(q[1..], k, v)
  }

  /** Dropping the pairs named `k` does not change the value of another name. */
  lemma {:induction false} DropNameGet(q: Query, k: string, k2: string)
    requires k2 != k
    ensures Get(DropName(q, k), k2) == Get(q, k2)
  {
    if q != [] {
      DropNameGet(q[1..], k, k2);
    }
  }

  /** When no pair is named `k`, dropping them changes nothing. */
  lemma {:induction false} DropNameAbsent(q: Query, k: string)
    requires k !in Keys(q, Name)
    ensures DropName(q, k) == q
  {
    if q != [] {
      assert q[0] in q;
      assert Keys(q[1..], Name) <= Keys(q, Name) by {
        forall x | x in Keys(q[1..], Name) ensures x in Keys(q, Name) {
          var p :| p in q[1..] && Name(p) == x;
          assert p in q;
        }
      }
      DropNameAbsent(q[1..], k);
    }
  }

  /** After `set`, the name has the new value and every other name keeps its value. */
  lemma {:induction false} SetParamGet(q: Query, k: string, v: string, k2: string)
    ensures Get(SetParam(q, k, v), k2) == if k2 == k then Some(v) else Get(q, k2)
  {
    if q != [] {
      if q[0].0 == k {
        if k2 != k {
          DropNameGet(q[1..], k, k2);
        }
      } else {
        SetParamGet(q[1..], k, v, k2);
      }
    }
  }

  /** `set` keeps the names distinct. */
  lemma {:induction false} SetParamDistinct(q: Query, k: string, v: string)
    requires DistinctKeys(q, Name)
    ensures DistinctKeys(SetParam(q, k, v), Name)
    ensures Keys(SetParam(q, k, v), Name) == Keys(q, Name) + {k}
  {
    if q == [] {
      KeysCons((k, v), q);
      assert [(k, v)] + q == [(k, v)];
    } else {
      var t := q[1..];
      HeadAndTail(q);
      if q[0].0 == k {
        DropNameAbsent(t, k);
        KeysCons((k, v), t);
      } else {
        SetParamDistinct(t, k, v);
        KeysCons(q[0], SetParam(t, k, v));
      }
    }
  }

  /** A list of distinct names splits into its first name and the distinct names after it. */
  lemma HeadAndTail(q: Query)
    requires q != [] && DistinctKeys(q, Name)
    ensures DistinctKeys(q[1..], Name) && q[0].0 !in Keys(q[1..], Name)
    ensures Keys(q, Name) == {q[0].0} + Keys(q[1..], Name)
  {
    var t := q[1..];
    assert q == [q[0]] + t;
    KeysCons(q[0], t);
    forall i, j | 0 <= i < j < |t| ensures t[i].0 != t[j].0 {
      assert t[i] == q[i + 1] && t[j] == q[j + 1];
    }
    forall p | p in t ensures Name(p) != q[0].0 {
      var i :| 0 <= i < |t| && t[i] == p;
      assert q[i + 1] == p;
    }
  }

  /** The names of a list with one more pair in front, and when they stay distinct. */
  lemma KeysCons(p: (string, string), t: Query)
    ensures Keys([p] + t, Name) == {p.0} + Keys(t, Name)
    ensures DistinctKeys(t, Name) && p.0 !in Keys(t, Name) ==> DistinctKeys([p] + t, Name)
  {
    var r := [p] + t;
    assert r[0] == p && p in r && Name(p) in Keys(r, Name);
    forall x | x in Keys(r, Name) ensures x in {p.0} + Keys(t, Name) {
      var y :| y in r && Name(y) == x;
      if y != p {
        var i :| 0 <= i < |r| && r[i] == y;
        assert t[i - 1] == y;
      }
    }
    forall x | x in Keys(t, Name) ensures x in Keys(r, Name) {
      var y :| y in t && Name(y) == x;
      assert y in r;
    }
    if DistinctKeys(t, Name) && p.0 !in Keys(t, Name) {
      forall i, j | 0 <= i < j < |r| ensures Name(r[i]) != Name(r[j]) {
        if i == 0 {
          assert r[j] == t[j - 1] && r[j] in t;
          assert Name(r[j]) in Keys(t, Name);
        } else {
          assert r[i] == t[i - 1] && r[j] == t[j - 1];
        }
      }
    }
  }

  /** The name of a pair. */
  function Name(p: (string, string)): string
  {
    p.0
  }

  /** The caller's value for `k`, as the last entry named `k` gives it. */
  function ParamValue(params: seq<(string, Value)>, k: string): (r: Value)
  {
    if params == [] then Undefined
    else if params[|params| - 1].0 == k then params[|params| - 1].1
    else ParamValue(params[..|params| - 1], k)
  }

  /** Whether the caller passes `k`. */
  predicate HasParam(params: seq<(string, Value)>, k: string)
  {
    exists i :: 0 <= i < |params| && params[i].0 == k
  }

  /** The pairs before the caller's parameters: the API key, then the default language. */
  function BaseQuery(apiKey: Option<string>, params: seq<(string, Value)>): Query
  {
    var key := if apiKey.Some? then apiKey.value else "";
    if Truthy(ParamValue(params, "language")) then [("api_key", key)]
    else [("api_key", key), ("language", DefaultLanguage)]
  }

  /** The query after setting the parameters `done` (a prefix of `params`). */
  function QueryAfter(apiKey: Option<string>, params: seq<(string, Value)>, done: seq<(string, Value)>): Query
  {
    if done == [] then BaseQuery(apiKey, params)
    else
      var last := done[|done| - 1];
      SetParam(QueryAfter(apiKey, params, done[..|done| - 1]), last.0, ValueText(last.1))
  }

  /**
   * `buildUrl`: the request address and its query parameters. The key is always set (empty
   * when unset), `language` defaults to `en-US` unless the caller passes a truthy one, and
   * then each caller parameter is set to its `String` value.
   */
  method BuildUrl(apiKey: Option<string>, path: string, params: seq<(string, Value)>)
    returns (address: string, q: Query)
    ensures address == BaseUrl + path
    ensures q == QueryAfter(apiKey, params, params)
  {
    address := BaseUrl + path;
    q := [("api_key", if apiKey.Some? then apiKey.value else "")];
    if !Truthy(ParamValue(params, "language")) {
      q := SetParam(q, "language", DefaultLanguage);
    }
    assert q == BaseQuery(apiKey, params) by {
      if !Truthy(ParamValue(params, "language")) {
        assert SetParam([("api_key", if apiKey.Some? then apiKey.value else "")], "language", DefaultLanguage)
          == [("api_key", if apiKey.Some? then apiKey.value else "")] + SetParam([], "language", DefaultLanguage);
      }
    }
    var i := 0;
    while i < |params|
      invariant 0 <= i <= |params|
      invariant q == QueryAfter(apiKey, params, params[..i])
    {
      var next := params[..i + 1];
      assert next[..i] == params[..i] && next[i] == params[i];
      q := SetParam(q, params[i].0, ValueText(params[i].1));
      i := i + 1;
    }
    assert params[..i] == params;
  }

  /** The caller passes `k` in `done` exactly when it is in all but the last entry or is the last entry's name. */
  lemma HasParamSnoc(done: seq<(string, Value)>, k: string)
    requires done != []
    ensures HasParam(done, k) <==> HasParam(done[..|done| - 1], k) || done[|done| - 1].0 == k
  {
    var init := done[..|done| - 1];
    assert forall i :: 0 <= i < |init| ==> init[i] == done[i];
    if HasParam(done, k) && done[|done| - 1].0 != k {
      var i :| 0 <= i < |done| && done[i].0 == k;
      assert init[i].0 == k;
    }
  }

  /** The value each name ends with: the caller's `String` value when passed, else the base value. */
  lemma {:induction false} QueryAfterGet(apiKey: Option<string>, params: seq<(string, Value)>, done: seq<(string, Value)>, k: string)
    ensures Get(QueryAfter(apiKey, params, done), k) ==
      if HasParam(done, k) then Some(ValueText(ParamValue(done, k))) else Get(BaseQuery(apiKey, params), k)
  {
    if done != [] {
      var init := done[..|done| - 1];
      var last := done[|done| - 1];
      QueryAfterGet(apiKey, params, init, k);
      SetParamGet(QueryAfter(apiKey, params, init), last.0, ValueText(last.1), k);
      HasParamSnoc(done, k);
    }
  }

  /** The built query names each parameter once. */
  lemma {:induction false} QueryAfterDistinct(apiKey: Option<string>, params: seq<(string, Value)>, done: seq<(string, Value)>)
    ensures DistinctKeys(QueryAfter(apiKey, params, done), Name)
  {
    if done != [] {
      QueryAfterDistinct(apiKey, params, done[..|done| - 1]);
      var last := done[|done| - 1];
      SetParamDistinct(QueryAfter(apiKey, params, done[..|done| - 1]), last.0, ValueText(last.1));
    }
  }

  /** What `buildUrl` promises about the key, the language and the caller's parameters. */
  lemma BuildUrlMeaning(apiKey: Option<string>, params: seq<(string, Value)>)
    ensures var q := QueryAfter(apiKey, params, params);
      && DistinctKeys(q, Name)
      && (!HasParam(params, "api_key") ==> Get(q, "api_key") == Some(if apiKey.Some? then apiKey.value else ""))
      && (!HasParam(params, "language") ==> Get(q, "language") == Some(DefaultLanguage))
      && (forall k :: HasParam(params, k) ==> Get(q, k) == Some(ValueText(ParamValue(params, k))))
  {
    QueryAfterDistinct(apiKey, params, params);
    QueryAfterGet(apiKey, params, params, "api_key");
    QueryAfterGet(apiKey, params, params, "language");
    if !HasParam(params, "language") {
      NoParamValue(params, "language");
    }
    forall k | HasParam(params, k) ensures Get(QueryAfter(apiKey, params, params), k) == Some(ValueText(ParamValue(params, k))) {
      QueryAfterGet(apiKey, params, params, k);
    }
  }

  /** A name the caller does not pass has no value. */
  lemma {:induction false} NoParamValue(params: seq<(string, Value)>, k: string)
    requires !HasParam(params, k)
    ensures ParamValue(params, k) == Undefined
  {
    if params != [] {
      var init := params[..|params| - 1];
      assert forall i :: 0 <= i < |init| ==> init[i] == params[i];
      NoParamValue(init, k);
    }
  }

  // ---------------------------------------------------------------- genres

  /** The movie genre table. */
  const MovieGenres: map<int, string> := map[
    28 := "Action", 12 := "Adventure", 16 := "Animation", 35 := "Comedy", 80 := "Crime",
    99 := "Documentary", 18 := "Drama", 10751 := "Family", 14 := "Fantasy", 36 := "History",
    27 := "Horror", 10402 := "Music", 9648 := "Mystery", 10749 := "Romance",
    878 := "Science Fiction", 10770 := "TV Movie", 53 := "Thriller", 10752 := "War",
    37 := "Western"]

  /** The TV genre table. */
  const TvGenres: map<int, string> := map[
    10759 := "Action & Adventure", 16 := "Animation", 35 := "Comedy", 80 := "Crime",
    99 := "Documentary", 18 := "Drama", 10751 := "Family", 10762 := "Kids", 9648 := "Mystery",
    10763 := "News", 10764 := "Reality", 10765 := "Sci-Fi & Fantasy", 10766 := "Soap",
    10767 := "Talk", 10768 := "War & Politics", 37 := "Western"]

  /** `GENRES[type] || GENRES.movie`. */
  function GenreTable(mediaType: string): map<int, string>
  {
    if mediaType == "tv" then TvGenres else MovieGenres
  }

  /** The ids argument of `getByGenre`: one id or a list of them. */
  datatype GenreIds = One(id: int) | Many(ids: seq<int>)

  function IdList(ids: GenreIds): seq<int>
  {
    match ids
    case One(id) => [id]
    case Many(list) => list
  }

  /** The names of the ids the table knows, in order. */
  function Names(list: seq<int>, table: map<int, string>): (r: seq<string>)
    ensures |r| <= |list|
    ensures forall i :: 0 <= i < |r| ==> r[i] in table.Values
  {
    if list == [] then []
    else
      var rest := Names(list[1..], table);
      if list[0] in table && table[list[0]] != "" then [table[list[0]]] + rest else rest
  }

  /** `getByGenre`: the names of the known ids, in order; unknown ids are dropped. */
  function GetByGenre(ids: GenreIds, mediaType: string): (r: seq<string>)
    ensures |r| <= |IdList(ids)|
    ensures forall i :: 0 <= i < |r| ==> r[i] in GenreTable(mediaType).Values
  {
    Names(IdList(ids), GenreTable(mediaType))
  }

  /** Every table name is non-empty, so the names of known ids are all kept, one per id. */
  lemma {:induction false} NamesOfKnown(list: seq<int>, table: map<int, string>)
    requires forall id :: id in table ==> table[id] != ""
    requires forall i :: 0 <= i < |list| ==> list[i] in table
    ensures |Names(list, table)| == |list|
    ensures forall i :: 0 <= i < |list| ==> Names(list, table)[i] == table[list[i]]
  {
    if list != [] {
      NamesOfKnown(list[1..], table);
    }
  }

  /** Unknown ids contribute nothing. */
  lemma {:induction false} NamesOfUnknown(list: seq<int>, table: map<int, string>)
    requires forall i :: 0 <= i < |list| ==> list[i] !in table
    ensures Names(list, table) == []
  {
    if list != [] {
      NamesOfUnknown(list[1..], table);
    }
  }

  /** The names of two lists one after the other. */
  lemma {:induction false} NamesAppend(a: seq<int>, b: seq<int>, table: map<int, string>)
    ensures Names(a + b, table) == Names(a, table) + Names(b, table)
  {
    if a != [] {
      assert (a + b)[0] == a[0] && (a + b)[1..] == a[1..] + b;
      NamesAppend(a[1..], b, table);
    } else {
      assert a + b == b;
    }
  }

  /** A type other than `tv` reads the movie table, and a single id reads as a one-id list. */
  lemma GetByGenreDefaults(id: int, mediaType: string)
    ensures mediaType != "tv" ==> GetByGenre(Many([id]), mediaType) == GetByGenre(Many([id]), "movie")
    ensures GetByGenre(One(id), mediaType) == GetByGenre(Many([id]), mediaType)
  {
  }

  /** The tables' names are all non-empty, and 10759 is a TV genre only. */
  lemma TablesShape()
    ensures forall id :: id in MovieGenres ==> MovieGenres[id] != ""
    ensures forall id :: id in TvGenres ==> TvGenres[id] != ""
    ensures 10759 !in MovieGenres && TvGenres[10759] == "Action & Adventure"
  {
  }

  // ---------------------------------------------------------------- images and configuration

  /** `getImageUrl`: `null` for a falsy path, else the image address; `size` defaults to `w500`. */
  function GetImageUrl(path: Value, size: Value): (r: Option<string>)
    ensures r.None? <==> !Truthy(path)
    ensures r.Some? ==> |ImageBase| <= |r.value| && r.value[..|ImageBase|] == ImageBase
    ensures r.Some? && size == Undefined ==> r.value == ImageBase + DefaultImageSize + ValueText(path)
    ensures r.Some? && size != Undefined ==> r.value == ImageBase + ValueText(size) + ValueText(path)
  {
    if !Truthy(path) then None
    else Some(ImageBase + ((if size == Undefined then DefaultImageSize else ValueText(size)) + ValueText(path)))
  }

  /**
   * Only an omitted size takes the default: passing `"w500"` gives the same address, while
   * an explicit `null` is written into the address as the text `null`. The size and path
   * can be read back from the address.
   */
  lemma ImageSizeDefault(path: string, size: string)
    requires path != []
    ensures GetImageUrl(Str(path), Undefined) == GetImageUrl(Str(path), Str(DefaultImageSize))
    ensures GetImageUrl(Str(path), Null) == Some(ImageBase + "null" + path)
    ensures var url := GetImageUrl(Str(path), Str(size)).value;
      url[|ImageBase|..|ImageBase| + |size|] == size && url[|ImageBase| + |size|..] == path
  {
    var url := ImageBase + size + path;
    assert url[|ImageBase|..|ImageBase| + |size|] == size;
    assert url[|ImageBase| + |size|..] == path;
  }

  /** `assertTmdbConfigured`: throws exactly when the key is unset or empty. */
  function AssertTmdbConfigured(apiKey: Option<string>): (r: Outcome<string>)
    ensures r.Fail? <==> apiKey.None? || apiKey.value == ""
    ensures r.Fail? ==> r.error == MissingKeyMessage
  {
    if apiKey.None? || apiKey.value == "" then Fail(MissingKeyMessage) else Pass
  }
}
