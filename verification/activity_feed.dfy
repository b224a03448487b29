/**
 * The home-page activity feed: the latest activity records of the users the signed-in user
 * follows, each labelled with its author's display name, newest first, at most 20.
 *
 * Store reads are inputs: `following` is the followed ids (`None` when that query fails),
 * `activity(uid)` the records of one followed user as the per-user query returns them,
 * newest first (`None` when it fails), and `users(uid)` the lookup of one user document.
 */
module ActivityFeed {
  import opened Wrappers
  import opened JsValues
  import opened Seqs
  import opened Relationships

  /** Records read per followed user (`limit(20)`), and items shown. */
  const FeedLimit: nat := 20

  /** `{ id: d.id, ...d.data() }`: the document id, overridden by a stored `id` field. */
  function Record(docId: string, data: Doc): (r: Doc)
    ensures Field(r, "id") == (if "id" in data then data["id"] else Str(docId))
    ensures forall k :: k != "id" ==> Field(r, k) == Field(data, k)
  {
    map["id" := Str(docId)] + data
  }

  /** The records one followed user contributes: the first 20 of their query, in order. */
  function UserRecords(docs: seq<(string, Doc)>): seq<Doc>
  {
    var first := Take(docs, FeedLimit);
    seq(|first|, i requires 0 <= i < |first| => Record(first[i].0, first[i].1))
  }

  /** Every per-user query succeeded. */
  predicate AllLoaded(following: seq<string>, activity: string -> Option<seq<(string, Doc)>>)
  {
    forall j :: 0 <= j < |following| ==> activity(following[j]).Some?
  }

  /** `(await Promise.all(promises)).flat()`: the users' records, user by user, in following order. */
  function Flatten(following: seq<string>, activity: string -> Option<seq<(string, Doc)>>): seq<Doc>
    requires AllLoaded(following, activity)
  {
    if following == [] then []
    else
      var init := following[..|following| - 1];
      assert AllLoaded(init, activity) by {
        forall j | 0 <= j < |init| ensures activity(init[j]).Some? {
          assert init[j] == following[j];
        }
      }
      Flatten(init, activity) + UserRecords(activity(following[|following| - 1]).value)
  }

  /** The distinct truthy `userId` values of the records. */
  function UserIdsOf(results: seq<Doc>): set<Value>
  {
    set r | r in results && Truthy(Field(r, "userId")) :: Field(r, "userId")
  }

  /** `u.username || u.email || uid`. */
  function NameOfUser(u: Doc, uid: Value): Value
  {
    Or(Field(u, "username"), Or(Field(u, "email"), uid))
  }

  /** `nameMap` once every lookup has settled: a name for every id whose user document exists. */
  function NameMapOf(ids: set<Value>, users: Value -> UserLookup): map<Value, Value>
  {
    map uid | uid in ids && users(uid).Found? :: NameOfUser(users(uid).data, uid)
  }

  /** `{ ...r, userName: nameMap.get(r.userId) || r.userId }`. */
  function Enrich(r: Doc, nameMap: map<Value, Value>): Doc
  {
    var uid := Field(r, "userId");
    r["userName" := Or(if uid in nameMap then nameMap[uid] else Undefined, uid)]
  }

  /** `results.map(...)`: each record labelled, in order; an accessor whose meaning `EnrichMeaning` states. */
  function EnrichAll(results: seq<Doc>, nameMap: map<Value, Value>): (e: seq<Doc>)
    ensures |e| == |results|
    ensures forall i :: 0 <= i < |results| ==> e[i] == Enrich(results[i], nameMap)
  {
    seq(|results|, i requires 0 <= i < |results| => Enrich(results[i], nameMap))
  }

  /** `r.timestamp?.toMillis?.() || 0`. */
  function FeedMillis(r: Doc): real
  {
    match Field(r, "timestamp")
    case Time(ts) => Millis(ts)
    case _ => 0.0
  }

  /** The enriched records, sorted newest first, before the cut to 20. */
  function SortedFeed(results: seq<Doc>, users: Value -> UserLookup): seq<Doc>
  {
    SortDesc(EnrichAll(results, NameMapOf(UserIdsOf(results), users)), FeedMillis)
  }

  /** Whether `run` gets past its early returns and its failure handler. */
  predicate Loads(user: Option<string>, following: Option<seq<string>>, activity: string -> Option<seq<(string, Doc)>>)
  {
    user.Some? && following.Some? && following.value != [] && AllLoaded(following.value, activity)
  }

  /** The items `run` stores. */
  function FeedOf(
    user: Option<string>, following: Option<seq<string>>,
    activity: string -> Option<seq<(string, Doc)>>, users: Value -> UserLookup): seq<Doc>
  {
    if !Loads(user, following, activity) then []
    else Take(SortedFeed(Flatten(following.value, activity), users), FeedLimit)
  }

  /** The users whose activity `run` queries. */
  function QueriedOf(user: Option<string>, following: Option<seq<string>>): seq<string>
  {
    if user.None? || following.None? then [] else following.value
  }

  /**
   * The body of `run`: read the followed ids, query each followed user's latest records,
   * look up the authors' names, label, sort and cut. `queried` lists the users whose
   * activity was queried.
   */
  method LoadFeed(
    user: Option<string>, following: Option<seq<string>>,
    activity: string -> Option<seq<(string, Doc)>>, users: Value -> UserLookup)
    returns (items: seq<Doc>, queried: seq<string>)
    ensures items == FeedOf(user, following, activity, users)
    ensures queried == QueriedOf(user, following)
  {
    if user.None? || following.None? || following.value == [] {
      return [], [];
    }
    var f := following.value;
    queried := f;
    var results, failed := FanOut(f, activity);
    if failed {
      return [], queried;
    }
    var userIds := set r | r in results && Truthy(Field(r, "userId")) :: Field(r, "userId");
    var nameMap := LookupNames(userIds, users);
    var enriched := EnrichAll(results, nameMap);
    items := Take(SortDesc(enriched, FeedMillis), FeedLimit);
  }

  /**
   * The per-user queries and `.flat()`: `failed` when any query fails (the whole load then
   * fails), else the records user by user.
   */
  method FanOut(f: seq<string>, activity: string -> Option<seq<(string, Doc)>>)
    returns (results: seq<Doc>, failed: bool)
    ensures failed <==> !AllLoaded(f, activity)
    ensures !failed ==> results == Flatten(f, activity)
  {
    results := [];
    failed := false;
    var j := 0;
    while j < |f|
      invariant 0 <= j <= |f|
      invariant failed <==> !AllLoaded(f[..j], activity)
      invariant !failed ==> results == Flatten(f[..j], activity)
    {
      var next := f[..j + 1];
      assert next[..j] == f[..j] && next[j] == f[j];
      var res := activity(f[j]);
      if res.None? {
        failed := true;
      } else if !failed {
        results := results + UserRecords(res.value);
      }
      j := j + 1;
    }
    assert f[..j] == f;
  }

  /** The name lookups, settling in any order; a missing document or a failed read adds no name. */
  method LookupNames(userIds: set<Value>, users: Value -> UserLookup) returns (nameMap: map<Value, Value>)
    ensures nameMap == NameMapOf(userIds, users)
  {
    nameMap := map[];
    var todo := userIds;
    while todo != {}
      invariant todo <= userIds
      invariant nameMap == NameMapOf(userIds - todo, users)
      decreases |todo|
    {
      var uid :| uid in todo;
      match users(uid) {
        case Found(u) =>
          nameMap := nameMap[uid := NameOfUser(u, uid)];
        case _ =>
      }
      todo := todo - {uid};
    }
    assert userIds - todo == userIds;
  }

  // ---------------------------------------------------------------- properties

  /** With no user, a failed following query or no followed user, the feed is empty and nothing is queried. */
  lemma EmptyFeed(
    user: Option<string>, following: Option<seq<string>>,
    activity: string -> Option<seq<(string, Doc)>>, users: Value -> UserLookup)
    requires user.None? || following.None? || following.value == []
    ensures FeedOf(user, following, activity, users) == []
    ensures |QueriedOf(user, following)| == 0
  {
  }

  /**
   * The feed is the first 20 of the labelled records (all of them when there are fewer),
   * newest first, and equal times keep their merge order.
   */
  lemma FeedOrder(
    user: Option<string>, following: Option<seq<string>>,
    activity: string -> Option<seq<(string, Doc)>>, users: Value -> UserLookup, v: real)
    requires Loads(user, following, activity)
    ensures var results := Flatten(following.value, activity);
      var feed := FeedOf(user, following, activity, users);
      var sorted := SortedFeed(results, users);
      && |sorted| == |results|
      && |feed| == (if FeedLimit < |results| then FeedLimit else |results|)
      && SortedDesc(feed, FeedMillis)
      && feed == sorted[..|feed|]
      && OfKey(sorted, FeedMillis, v) == OfKey(EnrichAll(results, NameMapOf(UserIdsOf(results), users)), FeedMillis, v)
  {
    var results := Flatten(following.value, activity);
    SortDescStable(EnrichAll(results, NameMapOf(UserIdsOf(results), users)), FeedMillis, v);
  }

  /** The display name of an author: their username, else e-mail, else id; the id when there is no document. */
  function UserName(uid: Value, users: Value -> UserLookup): Value
  {
    if Truthy(uid) && users(uid).Found? then NameOfUser(users(uid).data, uid) else uid
  }

  /** Labelling adds `userName` and changes no other field. */
  lemma EnrichMeaning(results: seq<Doc>, users: Value -> UserLookup, r: Doc)
    requires r in results
    ensures var e := Enrich(r, NameMapOf(UserIdsOf(results), users));
      && Field(e, "userName") == UserName(Field(r, "userId"), users)
      && e.Keys == r.Keys + {"userName"}
      && forall k :: k != "userName" && k in r ==> e[k] == r[k]
  {
    var uid := Field(r, "userId");
    if Truthy(uid) {
      assert uid in UserIdsOf(results);
    }
  }

  /** Every record of the merge is one of the first 20 records of some followed user's query. */
  lemma {:induction false} FlattenOrigin(following: seq<string>, activity: string -> Option<seq<(string, Doc)>>, r: Doc)
    requires AllLoaded(following, activity)
    requires r in Flatten(following, activity)
    ensures exists j, k ::
              && 0 <= j < |following| && 0 <= k < |activity(following[j]).value| && k < FeedLimit
              && r == Record(activity(following[j]).value[k].0, activity(following[j]).value[k].1)
  {
    var n := |following|;
    var init := following[..n - 1];
    assert AllLoaded(init, activity) by {
      forall j | 0 <= j < |init| ensures activity(init[j]).Some? {
        assert init[j] == following[j];
      }
    }
    var last := UserRecords(activity(following[n - 1]).value);
    assert Flatten(following, activity) == Flatten(init, activity) + last;
    if r in Flatten(init, activity) {
      FlattenOrigin(init, activity, r);
      var j, k :| 0 <= j < |init| && 0 <= k < |activity(init[j]).value| && k < FeedLimit
        && r == Record(activity(init[j]).value[k].0, activity(init[j]).value[k].1);
      assert init[j] == following[j];
    } else {
      var k :| 0 <= k < |last| && last[k] == r;
      var docs := activity(following[n - 1]).value;
      assert Take(docs, FeedLimit)[k] == docs[k];
    }
  }

  /** A feed item is the labelled form of one of the merged records. */
  lemma FeedSource(results: seq<Doc>, names: map<Value, Value>, e: Doc) returns (r: Doc)
    requires e in Take(SortDesc(EnrichAll(results, names), FeedMillis), FeedLimit)
    ensures r in results && e == Enrich(r, names)
  {
    var enriched := EnrichAll(results, names);
    var sorted := SortDesc(enriched, FeedMillis);
    assert e in sorted;
    assert e in multiset(sorted);
    assert e in multiset(enriched);
    var i :| 0 <= i < |enriched| && enriched[i] == e;
    r := results[i];
  }

  /** The per-user query honours its `userId` filter. */
  predicate HonoursFilter(following: seq<string>, activity: string -> Option<seq<(string, Doc)>>)
  {
    forall j, k :: 0 <= j < |following| && activity(following[j]).Some? && 0 <= k < |activity(following[j]).value|
      ==> Field(activity(following[j]).value[k].1, "userId") == Str(following[j])
  }

  /**
   * Every feed item is one of the first 20 records of a followed user, labelled; when the
   * queries honour their filter, its author is a followed user.
   */
  lemma FeedOrigin(
    user: Option<string>, following: Option<seq<string>>,
    activity: string -> Option<seq<(string, Doc)>>, users: Value -> UserLookup, e: Doc)
    requires Loads(user, following, activity)
    requires e in FeedOf(user, following, activity, users)
    ensures exists r ::
              && r in Flatten(following.value, activity)
              && e == Enrich(r, NameMapOf(UserIdsOf(Flatten(following.value, activity)), users))
    ensures HonoursFilter(following.value, activity) ==>
      exists j :: 0 <= j < |following.value| && Field(e, "userId") == Str(following.value[j])
  {
    var f := following.value;
    var results := Flatten(f, activity);
    var names := NameMapOf(UserIdsOf(results), users);
    var r := FeedSource(results, names, e);
    if HonoursFilter(f, activity) {
      FlattenOrigin(f, activity, r);
      var j, k :| 0 <= j < |f| && 0 <= k < |activity(f[j]).value| && k < FeedLimit
        && r == Record(activity(f[j]).value[k].0, activity(f[j]).value[k].1);
      assert Field(r, "userId") == Str(f[j]);
    }
  }
}
