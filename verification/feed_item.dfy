/**
 * One line of the activity feed: who did what to which title, with a link to the title.
 *
 * The item is a feed record. The title lookup the line starts when it appears (movie details
 * first, then show details) is given as the two lookups `movie` and `show` (`None` when the
 * request fails); before it settles, or without an id, both fetched values are `null`.
 */
module FeedItem {
  import opened Wrappers
  import opened JsValues

  /** The fetched title and media type once the lookup has settled. */
  datatype Fetched = Fetched(title: Value, mediaType: Value)

  /** The lookup: movie details first; on failure, show details; on failure of both, nothing. */
  function Lookup(item: Doc, movie: Value -> Option<Doc>, show: Value -> Option<Doc>): (f: Fetched)
    ensures !Truthy(Field(item, "tmdbId")) ==> f == Fetched(Null, Null)
    ensures f.mediaType in {Null, Str("movie"), Str("tv")}
  {
    var id := Field(item, "tmdbId");
    if !Truthy(id) then Fetched(Null, Null)
    else match movie(id)
      case Some(m) => Fetched(Or(Field(m, "title"), Null), Str("movie"))
      case None =>
        match show(id)
        case Some(t) => Fetched(Or(Field(t, "name"), Null), Str("tv"))
        case None => Fetched(Null, Null)
  }

  /** `fetchedTitle || item.title || item.name || String(item.tmdbId)`. */
  function Title(item: Doc, f: Fetched): Value
  {
    Or(f.title, Or(Field(item, "title"), Or(Field(item, "name"), Str(ValueText(Field(item, "tmdbId"))))))
  }

  /** A star rating is shown for a numeric rating, except on watchlist and watching lines. */
  predicate HasRating(item: Doc)
  {
    Field(item, "rating").Num? && Field(item, "status") != Str("watchlist") && Field(item, "status") != Str("watching")
  }

  /** `item.mediaType || fetchedType || (item.title ? "movie" : "tv")`. */
  function LinkType(item: Doc, f: Fetched): Value
  {
    Or(Field(item, "mediaType"), Or(f.mediaType, if Truthy(Field(item, "title")) then Str("movie") else Str("tv")))
  }

  /** `getStatusText`. */
  function StatusText(item: Doc): (r: Value)
    ensures Field(item, "status") != Str("watchlist") && Field(item, "status") != Str("watching")
      ==> r == Field(item, "status")
  {
    var status := Field(item, "status");
    if status == Str("watchlist") then Str("has added")
    else if status == Str("watching") then Str("is now watching")
    else status
  }

  /** `item.userName || item.userId`. */
  function ActorLabel(item: Doc): Value
  {
    Or(Field(item, "userName"), Field(item, "userId"))
  }

  /** How a value renders as a child element: `null`, `undefined` and booleans render nothing. */
  function Rendered(v: Value): string
  {
    match v
    case Undefined => ""
    case Null => ""
    case Bool(_) => ""
    case _ => ValueText(v)
  }

  /** The ` to Watchlist` suffix, shown on watchlist lines only. */
  function Suffix(item: Doc): string
  {
    if Field(item, "status") == Str("watchlist") then " to Watchlist" else ""
  }

  /** The action part of the line: the rating with its star, or the status text. */
  function Action(item: Doc): string
  {
    if HasRating(item) then "rated " + Rendered(Field(item, "rating")) + " * "
    else ValueText(StatusText(item)) + " "
  }

  /** The text of the line; the star icon is written as `*`. */
  function Line(item: Doc, f: Fetched): string
  {
    Rendered(ActorLabel(item)) + " " + Action(item) + Rendered(Title(item, f)) + Suffix(item)
  }

  /** The link target: `/title/${tmdbId}?type=${linkType}`. */
  function Href(item: Doc, f: Fetched): string
  {
    "/title/" + ValueText(Field(item, "tmdbId")) + "?type=" + ValueText(LinkType(item, f))
  }

  // ---------------------------------------------------------------- properties

  /**
   * A watchlist or watching record stores rating 0 when none was given, yet its line shows
   * the status text and no rating.
   */
  lemma WatchlistShowsNoRating(item: Doc)
    requires Field(item, "status") in {Str("watchlist"), Str("watching")}
    ensures !HasRating(item)
    ensures Field(item, "status") == Str("watchlist") ==>
      Action(item) == "has added " && Suffix(item) == " to Watchlist"
    ensures Field(item, "status") == Str("watching") ==> Action(item) == "is now watching " && Suffix(item) == ""
  {
  }

  /** A numeric rating on any other status is shown, and no suffix follows. */
  lemma RatedLine(item: Doc, x: real)
    requires Field(item, "rating") == Num(x)
    requires Field(item, "status") != Str("watchlist") && Field(item, "status") != Str("watching")
    ensures HasRating(item)
    ensures Action(item) == "rated " + NumberText(x) + " * "
    ensures Suffix(item) == ""
  {
  }

  /** The status shows verbatim unless it is watchlist or watching; a missing status shows as `undefined`. */
  lemma StatusVerbatim(item: Doc)
    requires !HasRating(item)
    requires Field(item, "status") != Str("watchlist") && Field(item, "status") != Str("watching")
    ensures Action(item) == ValueText(Field(item, "status")) + " "
    ensures "status" !in item ==> Action(item) == "undefined "
  {
  }

  /** The title falls back in order: fetched, stored title, stored name, the id's text. */
  lemma TitleFallback(item: Doc, f: Fetched)
    ensures Truthy(f.title) ==> Title(item, f) == f.title
    ensures !Truthy(f.title) && Truthy(Field(item, "title")) ==> Title(item, f) == Field(item, "title")
    ensures !Truthy(f.title) && !Truthy(Field(item, "title")) && Truthy(Field(item, "name")) ==>
      Title(item, f) == Field(item, "name")
    ensures !Truthy(f.title) && !Truthy(Field(item, "title")) && !Truthy(Field(item, "name")) ==>
      Title(item, f) == Str(ValueText(Field(item, "tmdbId")))
  {
  }

  /**
   * The link type is the stored media type, else the fetched type, else guessed from the
   * stored title; with a settled lookup and no stored type it is always `movie` or `tv`.
   */
  lemma LinkTypeFallback(item: Doc, movie: Value -> Option<Doc>, show: Value -> Option<Doc>)
    ensures var f := Lookup(item, movie, show);
      && (Truthy(Field(item, "mediaType")) ==> LinkType(item, f) == Field(item, "mediaType"))
      && (!Truthy(Field(item, "mediaType")) ==> LinkType(item, f) in {Str("movie"), Str("tv")})
      && (!Truthy(Field(item, "mediaType")) && f.mediaType.Str? ==> LinkType(item, f) == f.mediaType)
  {
  }

  /** The actor is the display name, else the user id. */
  lemma ActorFallback(item: Doc)
    ensures Truthy(Field(item, "userName")) ==> ActorLabel(item) == Field(item, "userName")
    ensures !Truthy(Field(item, "userName")) ==> ActorLabel(item) == Field(item, "userId")
  {
  }
}
