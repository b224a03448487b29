/**
 * The `user_activity` collection: one record per user and title, stored under the document
 * id `${userId}_${tmdbId}`, written with a merge-upsert.
 *
 * User ids, media types and statuses are strings, the empty string standing for a missing
 * value. The server timestamp is the parameter `now`; a failed store write is the parameter
 * `fault` (`Some(message)` when the write throws with that message, which propagates as is).
 */
module Activity {
  import opened Wrappers
  import opened JsValues
  import opened Seqs

  /** A catalog id as callers pass it: a number, a string, or nothing. */
  datatype MediaId = NumId(n: real) | StrId(s: string) | NoId

  /** The arguments of `updateMediaStatus`; `rating` defaults to `null`, `review` to `""`. */
  datatype Update = Update(
    userId: string, tmdbId: MediaId, mediaType: string, status: string,
    rating: Value, review: Value)

  type Store = map<string, Doc>

  /** Longest review kept. */
  const ReviewLimit: nat := 500

  /** Whether a catalog id is truthy: a non-zero number or a non-empty string. */
  predicate Present(id: MediaId)
  {
    match id
    case NumId(n) => n != 0.0
    case StrId(s) => s != ""
    case NoId => false
  }

  /** `${tmdbId}`. */
  function IdText(id: MediaId): string
  {
    match id
    case NumId(n) => NumberText(n)
    case StrId(s) => s
    case NoId => "undefined"
  }

  /** The document id of a user's record for a title. */
  function ActivityKey(userId: string, tmdbId: MediaId): string
  {
    userId + "_" + IdText(tmdbId)
  }

  /** The stored `tmdbId`: a string stays a string, anything else goes through `Number`. */
  function StoredId(id: MediaId): Value
  {
    match id
    case StrId(s) => Str(s)
    case NumId(n) => Num(n)
    case NoId => Undefined
  }

  /** The stored rating: `Number(rating)` when it is finite and within [0, 10], else `null`. */
  function FinalRating(rating: Value): (r: Value)
    ensures r == Null || (r.Num? && 0.0 <= r.n <= 10.0)
    ensures r.Num? <==> exists x :: ToNumber(rating) == Some(x) && 0.0 <= x <= 10.0
    ensures r.Num? ==> ToNumber(rating) == Some(r.n)
  {
    match ToNumber(rating)
    case Some(x) => if 0.0 <= x <= 10.0 then Num(x) else Null
    case None => Null
  }

  /** The stored review: `String(review || "").trim().slice(0, 500)`. */
  function SafeReview(review: Value): (r: string)
    ensures |r| <= ReviewLimit
    ensures var t := Trim(ValueText(Or(review, Str("")))); |r| <= |t| && r == t[..|r|]
    ensures |r| < ReviewLimit ==> r == Trim(ValueText(Or(review, Str(""))))
  {
    Take(Trim(ValueText(Or(review, Str("")))), ReviewLimit)
  }

  /** The rating argument after its destructuring default: an omitted (`undefined`) rating is `null`. */
  function RatingArg(rating: Value): (r: Value)
    ensures r != Undefined
    ensures rating != Undefined ==> r == rating
  {
    if rating == Undefined then Null else rating
  }

  /** The fields `updateMediaStatus` writes. */
  function Payload(u: Update, now: Timestamp): (p: Doc)
    ensures p.Keys == {"userId", "tmdbId", "mediaType", "status", "rating", "review", "timestamp"}
    ensures p["rating"] == FinalRating(RatingArg(u.rating))
    ensures p["timestamp"] == Time(now)
  {
    map[
      "userId" := Str(u.userId),
      "tmdbId" := StoredId(u.tmdbId),
      "mediaType" := Str(u.mediaType),
      "status" := Str(u.status),
      "rating" := FinalRating(RatingArg(u.rating)),
      "review" := Str(SafeReview(u.review)),
      "timestamp" := Time(now)]
  }

  /** The first failing argument check of `updateMediaStatus`, in the order the source checks them. */
  function Validate(u: Update): (r: Outcome<string>)
    ensures r.Pass? <==> u.userId != "" && Present(u.tmdbId) && u.mediaType != "" && u.status != ""
  {
    if u.userId == "" then Fail("updateMediaStatus: userId is required")
    else if !Present(u.tmdbId) then Fail("updateMediaStatus: tmdbId is required")
    else if u.mediaType == "" then Fail("updateMediaStatus: mediaType is required")
    else if u.status == "" then Fail("updateMediaStatus: status is required")
    else Pass
  }

  /** `setDoc(ref, payload, { merge: true })`: payload fields overwrite, the others stay. */
  function Merge(store: Store, key: string, payload: Doc): (s: Store)
    ensures s.Keys == store.Keys + {key}
    ensures forall k :: k in store && k != key ==> s[k] == store[k]
    ensures forall f :: f in payload ==> f in s[key] && s[key][f] == payload[f]
    ensures key in store ==> forall f :: f in store[key] && f !in payload ==> f in s[key] && s[key][f] == store[key][f]
    ensures key !in store ==> s[key] == payload
  {
    store[key := (if key in store then store[key] else map[]) + payload]
  }

  /** `updateMediaStatus`: the new store, or the error it throws. */
  function Upsert(store: Store, u: Update, now: Timestamp, fault: Option<string>): Result<Store, string>
  {
    match Validate(u)
    case Fail(m) => Err(m)
    case Pass =>
      if fault.Some? then Err(fault.value)
      else Ok(Merge(store, ActivityKey(u.userId, u.tmdbId), Payload(u, now)))
  }

  /** `getUserMediaStatus`: `null` for a missing id, else the stored record or `null`. */
  function Lookup(store: Store, userId: string, tmdbId: MediaId): Option<Doc>
  {
    if userId == "" || !Present(tmdbId) then None
    else if ActivityKey(userId, tmdbId) in store then Some(store[ActivityKey(userId, tmdbId)])
    else None
  }

  /** `removeMediaStatus`: the new store, or the error it throws. */
  function Remove(store: Store, userId: string, tmdbId: MediaId, fault: Option<string>): (r: Result<Store, string>)
    ensures r.Ok? ==> ActivityKey(userId, tmdbId) !in r.value
    ensures r.Ok? ==> forall k :: k in store && k != ActivityKey(userId, tmdbId) ==> k in r.value && r.value[k] == store[k]
    ensures r.Ok? ==> r.value.Keys <= store.Keys
  {
    if userId == "" then Err("removeMediaStatus: userId is required")
    else if !Present(tmdbId) then Err("removeMediaStatus: tmdbId is required")
    else if fault.Some? then Err(fault.value)
    else Ok(store - {ActivityKey(userId, tmdbId)})
  }

  // ---------------------------------------------------------------- properties

  /** An update fails exactly on a missing argument or a failed write, and then names the first missing one. */
  lemma UpsertErrors(store: Store, u: Update, now: Timestamp, fault: Option<string>)
    ensures Upsert(store, u, now, fault).Err? <==> Validate(u).Fail? || fault.Some?
    ensures u.userId == "" ==> Upsert(store, u, now, fault) == Err("updateMediaStatus: userId is required")
    ensures u.userId != "" && !Present(u.tmdbId) ==> Upsert(store, u, now, fault) == Err("updateMediaStatus: tmdbId is required")
  {
  }

  /**
   * Merging a second payload that writes every field the first wrote hides the first merge:
   * the document is as if only the second had been merged.
   */
  lemma MergeAgain(store: Store, key: string, first: Doc, second: Doc)
    requires first.Keys <= second.Keys
    ensures Merge(Merge(store, key, first), key, second) == Merge(store, key, second)
  {
    var base := if key in store then store[key] else map[];
    assert (base + first) + second == base + second;
  }

  /**
   * Repeating an update, at any later time, leaves the store as one update at that time would
   * have left it: the pair keeps a single record, and the same update at the same time changes
   * nothing.
   */
  lemma UpsertIdempotent(store: Store, u: Update, now: Timestamp, later: Timestamp)
    requires Upsert(store, u, now, None).Ok?
    ensures var s1 := Upsert(store, u, now, None).value;
      && Upsert(s1, u, later, None) == Upsert(store, u, later, None)
      && Upsert(s1, u, now, None) == Ok(s1)
      && s1.Keys == store.Keys + {ActivityKey(u.userId, u.tmdbId)}
  {
    var key := ActivityKey(u.userId, u.tmdbId);
    MergeAgain(store, key, Payload(u, now), Payload(u, later));
    MergeAgain(store, key, Payload(u, now), Payload(u, now));
  }

  /**
   * After a successful update a lookup of the pair finds a record holding every written
   * field and every other field the earlier record had; without an earlier record it finds
   * exactly the written fields.
   */
  lemma UpsertThenLookup(store: Store, u: Update, now: Timestamp)
    requires Upsert(store, u, now, None).Ok?
    ensures var s1 := Upsert(store, u, now, None).value;
      && Lookup(s1, u.userId, u.tmdbId).Some?
      && var d := Lookup(s1, u.userId, u.tmdbId).value;
         && (forall f :: f in Payload(u, now) ==> f in d && d[f] == Payload(u, now)[f])
         && (Lookup(store, u.userId, u.tmdbId).None? ==> d == Payload(u, now))
         && (Lookup(store, u.userId, u.tmdbId).Some? ==>
               var before := Lookup(store, u.userId, u.tmdbId).value;
               forall f :: f in before && f !in Payload(u, now) ==> f in d && d[f] == before[f])
  {
    var key := ActivityKey(u.userId, u.tmdbId);
    var s1 := Merge(store, key, Payload(u, now));
    assert Upsert(store, u, now, None) == Ok(s1);
    assert Lookup(s1, u.userId, u.tmdbId) == Some(s1[key]);
  }

  /** After a successful removal a lookup of the pair finds nothing. */
  lemma RemoveThenLookup(store: Store, userId: string, tmdbId: MediaId)
    requires Remove(store, userId, tmdbId, None).Ok?
    ensures Lookup(Remove(store, userId, tmdbId, None).value, userId, tmdbId) == None
  {
  }

  /** A stored rating is the input exactly when the input is a number within [0, 10]. */
  lemma RatingKept(x: real)
    ensures FinalRating(Num(x)) == (if 0.0 <= x <= 10.0 then Num(x) else Null)
  {
  }

  /**
   * An omitted rating, and an explicit `null`, are stored as 0 rather than `null`: the default
   * `null` goes through `Number`, which gives 0.
   */
  lemma OmittedRatingIsZero(u: Update, now: Timestamp)
    requires u.rating == Undefined || u.rating == Null
    ensures Payload(u, now)["rating"] == Num(0.0)
  {
  }

  /** A numeric-string rating counts as its number: `"7"` is stored as 7. */
  lemma RatingFromText(d: string)
    requires d != [] && AllDigits(d) && DigitsValue(d) <= 10
    ensures FinalRating(Str(d)) == Num(DigitsValue(d) as real)
  {
    ParseUnsignedText(d);
    ParseDigits(d);
  }

  /**
   * A title id written as a string and the same id written as a number share one record,
   * but the record then stores a string `tmdbId` that equals no numeric catalog id.
   */
  lemma {:induction false} StringIdSharesKey(userId: string, n: nat)
    ensures ActivityKey(userId, StrId(NatText(n))) == ActivityKey(userId, NumId(n as real))
    ensures StoredId(StrId(NatText(n))) != Num(n as real)
  {
    NumberTextOfInt(n);
    assert IntText(n) == NatText(n);
  }

  // ---------------------------------------------------------------- the store

  /** The `user_activity` collection. */
  class ActivityStore {
    var docs: Store

    constructor (initial: Store)
      ensures docs == initial
    {
      docs := initial;
    }

    /** `updateMediaStatus`: check the arguments, normalise rating and review, merge-upsert. */
    method UpdateMediaStatus(u: Update, now: Timestamp, fault: Option<string>) returns (r: Outcome<string>)
      modifies this
      ensures var t := Upsert(old(docs), u, now, fault);
        && (t.Ok? ==> r.Pass? && docs == t.value)
        && (t.Err? ==> r == Fail(t.error) && docs == old(docs))
    {
      var check := Validate(u);
      if check.Fail? {
        return check;
      }
      if fault.Some? {
        return Fail(fault.value);
      }
      var key := ActivityKey(u.userId, u.tmdbId);
      var payload := Payload(u, now);
      var current := if key in docs then docs[key] else map[];
      docs := docs[key := current + payload];
      r := Pass;
    }

    /**
     * `getUserMediaStatus`: `null` without a read for a missing id; otherwise a failed read
     * (`readFault`) rejects, and a successful one gives the stored record or `null`.
     */
    method GetUserMediaStatus(userId: string, tmdbId: MediaId, readFault: Option<string>) returns (r: Result<Option<Doc>, string>)
      ensures r.Err? <==> userId != "" && Present(tmdbId) && readFault.Some?
      ensures r.Err? ==> r.error == readFault.value
      ensures r.Ok? ==> r.value == Lookup(docs, userId, tmdbId)
      ensures r.Ok? && r.value.Some? ==> ActivityKey(userId, tmdbId) in docs && r.value.value == docs[ActivityKey(userId, tmdbId)]
      ensures r.Ok? && r.value.None? ==> userId == "" || !Present(tmdbId) || ActivityKey(userId, tmdbId) !in docs
    {
      if userId == "" || !Present(tmdbId) {
        return Ok(None);
      }
      if readFault.Some? {
        return Err(readFault.value);
      }
      var key := ActivityKey(userId, tmdbId);
      r := if key in docs then Ok(Some(docs[key])) else Ok(None);
    }

    /** `removeMediaStatus`: check both ids, delete that pair's record. */
    method RemoveMediaStatus(userId: string, tmdbId: MediaId, fault: Option<string>) returns (r: Outcome<string>)
      modifies this
      ensures var t := Remove(old(docs), userId, tmdbId, fault);
        && (t.Ok? ==> r.Pass? && docs == t.value)
        && (t.Err? ==> r == Fail(t.error) && docs == old(docs))
    {
      if userId == "" {
        return Fail("removeMediaStatus: userId is required");
      }
      if !Present(tmdbId) {
        return Fail("removeMediaStatus: tmdbId is required");
      }
      if fault.Some? {
        return Fail(fault.value);
      }
      docs := docs - {ActivityKey(userId, tmdbId)};
      r := Pass;
    }
  }
}
