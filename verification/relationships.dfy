/**
 * Follow relationships and user lookups. The `relationships` collection is a map from
 * document id `${followerId}_${followingId}` to the edge it stores.
 *
 * Ids are strings; the empty string stands for every missing id (`null`, `undefined`,
 * `""`), all of which these operations reject before using them. A failed store write
 * is the `fault` parameter: `Some(message)` when the write throws with that message.
 */
module Relationships {
  import opened Wrappers
  import opened JsValues
  import opened Seqs

  /** The outcome of reading one user document. */
  datatype UserLookup = Found(data: Doc) | Missing | Failed

  /** A stored follow edge: `{ followerId, followingId }`. */
  datatype Edge = Edge(followerId: string, followingId: string)

  type Edges = map<string, Edge>

  /** The document id of an edge: `${followerId}_${followingId}`. */
  function EdgeKey(followerId: string, followingId: string): string
  {
    followerId + "_" + followingId
  }

  /** Without `_` in the follower id, the first `_` of the document id ends the follower id. */
  lemma {:induction false} FirstUnderscore(followerId: string, followingId: string)
    requires '_' !in followerId
    ensures '_' in EdgeKey(followerId, followingId)
    ensures IndexOf(EdgeKey(followerId, followingId), '_') == |followerId|
  {
    var k := EdgeKey(followerId, followingId);
    assert k[|followerId|] == '_';
    assert k[..|followerId|] == followerId;
    var i := IndexOf(k, '_');
    assert forall j :: 0 <= j < |followerId| ==> k[j] == followerId[j];
    assert forall j :: 0 <= j < i ==> k[..i][j] == k[j];
  }

  /** Two pairs share a document id only if they are the same pair, for follower ids without `_`. */
  lemma {:induction false} EdgeKeyInjective(f1: string, g1: string, f2: string, g2: string)
    requires '_' !in f1 && '_' !in f2
    ensures EdgeKey(f1, g1) == EdgeKey(f2, g2) <==> f1 == f2 && g1 == g2
  {
    if EdgeKey(f1, g1) == EdgeKey(f2, g2) {
      var k := EdgeKey(f1, g1);
      FirstUnderscore(f1, g1);
      FirstUnderscore(f2, g2);
      assert f1 == k[..|f1|] == f2;
      assert g1 == k[|f1| + 1..] == g2;
    }
  }

  /** With `_` inside a follower id, two different pairs share one document. */
  lemma EdgeKeyCollision()
    ensures EdgeKey("a_b", "c") == EdgeKey("a", "b_c")
    ensures Edge("a_b", "c") != Edge("a", "b_c")
  {
    assert EdgeKey("a_b", "c") == "a_b_c";
    assert EdgeKey("a", "b_c") == "a_b_c";
  }

  /** Every document is stored under the id of the edge it holds. */
  ghost predicate WellKeyed(edges: Edges)
  {
    forall k :: k in edges ==> k == EdgeKey(edges[k].followerId, edges[k].followingId)
  }

  // ---------------------------------------------------------------- transitions

  /** `followUser`: the new edge set, or the error it throws. */
  function Follow(edges: Edges, followerId: string, followingId: string, fault: Option<string>): (r: Result<Edges, string>)
    ensures r.Err? <==> followerId == "" || followingId == "" || followerId == followingId || fault.Some?
    ensures r.Ok? ==> EdgeKey(followerId, followingId) in r.value
    ensures r.Ok? ==> r.value[EdgeKey(followerId, followingId)] == Edge(followerId, followingId)
    ensures r.Ok? ==> forall k :: k != EdgeKey(followerId, followingId) ==>
      (k in r.value <==> k in edges) && (k in edges ==> r.value[k] == edges[k])
  {
    if followerId == "" || followingId == "" then Err("followUser: ids required")
    else if followerId == followingId then Err("followUser: cannot follow yourself")
    else if fault.Some? then Err(fault.value)
    else Ok(edges[EdgeKey(followerId, followingId) := Edge(followerId, followingId)])
  }

  /** `unfollowUser`: the new edge set, or the error it throws. */
  function Unfollow(edges: Edges, followerId: string, followingId: string, fault: Option<string>): (r: Result<Edges, string>)
    ensures r.Err? <==> followerId == "" || followingId == "" || fault.Some?
    ensures r.Ok? ==> EdgeKey(followerId, followingId) !in r.value
    ensures r.Ok? ==> forall k :: k != EdgeKey(followerId, followingId) ==>
      (k in r.value <==> k in edges) && (k in edges ==> r.value[k] == edges[k])
  {
    if followerId == "" || followingId == "" then Err("unfollowUser: ids required")
    else if fault.Some? then
      Err("unfollowUser: " + (if fault.value == "" then "Unfollow failed" else fault.value))
    else Ok(edges - {EdgeKey(followerId, followingId)})
  }

  /** `isFollowing`: false for a missing id, else whether the edge document exists. */
  predicate Follows(edges: Edges, followerId: string, followingId: string)
  {
    followerId != "" && followingId != "" && EdgeKey(followerId, followingId) in edges
  }

  /**
   * `isFollowing` with its read: false without a read for a missing id; otherwise the read's
   * failure (`readFault`) is thrown, and a successful read tells whether the document exists.
   */
  function IsFollowingRead(edges: Edges, followerId: string, followingId: string, readFault: Option<string>): (r: Result<bool, string>)
    ensures r.Err? <==> followerId != "" && followingId != "" && readFault.Some?
    ensures r.Err? ==> r.error == readFault.value
    ensures r.Ok? ==> r.value == Follows(edges, followerId, followingId)
  {
    if followerId == "" || followingId == "" then Ok(false)
    else if readFault.Some? then Err(readFault.value)
    else Ok(EdgeKey(followerId, followingId) in edges)
  }

  /**
   * `toggleFollow`: the new state and edge set, or the error it throws. `readFault` is the
   * failure of the `isFollowing` read, `fault` that of the write.
   */
  function Toggle(edges: Edges, followerId: string, followingId: string, readFault: Option<string>, fault: Option<string>): (r: Result<(bool, Edges), string>)
  {
    match IsFollowingRead(edges, followerId, followingId, readFault)
    case Err(m) => Err(m)
    case Ok(true) =>
      (match Unfollow(edges, followerId, followingId, fault)
       case Ok(e) => Ok((false, e))
       case Err(m) => Err(m))
    case Ok(false) =>
      (match Follow(edges, followerId, followingId, fault)
       case Ok(e) => Ok((true, e))
       case Err(m) => Err(m))
  }

  /** The ids followed by `followerId`, one per matching edge document. */
  function FollowingSet(edges: Edges, followerId: string): set<string>
  {
    set k | k in edges && edges[k].followerId == followerId :: edges[k].followingId
  }

  // ---------------------------------------------------------------- properties

  /** A toggle reports the negation of the prior state and, when it succeeds, makes that the new state. */
  lemma ToggleNegates(edges: Edges, followerId: string, followingId: string, readFault: Option<string>, fault: Option<string>)
    ensures var r := Toggle(edges, followerId, followingId, readFault, fault);
      r.Ok? ==> (r.value.0 == !Follows(edges, followerId, followingId)
                 && Follows(r.value.1, followerId, followingId) == r.value.0)
  {
  }

  /**
   * A toggle fails exactly on a missing id, a failed read, a self-follow, or a failed write; a
   * missing id is reported by `followUser`, a failed read with the read's own error.
   */
  lemma ToggleErrors(edges: Edges, followerId: string, followingId: string, readFault: Option<string>, fault: Option<string>)
    ensures Toggle(edges, followerId, followingId, readFault, fault).Err? <==>
      followerId == "" || followingId == "" || readFault.Some? || fault.Some?
      || (followerId == followingId && !Follows(edges, followerId, followingId))
    ensures followerId == "" || followingId == "" ==>
      Toggle(edges, followerId, followingId, readFault, fault) == Err("followUser: ids required")
    ensures followerId != "" && followingId != "" && readFault.Some? ==>
      Toggle(edges, followerId, followingId, readFault, fault) == Err(readFault.value)
  {
  }

  /**
   * After a successful toggle, a second one succeeds unless the pair is a self-pair (which
   * can be unfollowed but not followed). Two successful toggles restore the original set of
   * edge documents, and the original store itself unless the pair's document held a
   * different edge.
   */
  lemma {:induction false} ToggleTwice(edges: Edges, followerId: string, followingId: string)
    requires Toggle(edges, followerId, followingId, None, None).Ok?
    ensures var e1 := Toggle(edges, followerId, followingId, None, None).value.1;
      var r2 := Toggle(e1, followerId, followingId, None, None);
      && (r2.Ok? <==> followerId != followingId)
      && (r2.Ok? ==>
            && r2.value.0 == Follows(edges, followerId, followingId)
            && r2.value.1.Keys == edges.Keys
            && (Follows(edges, followerId, followingId) ==>
                  r2.value.1 == edges[EdgeKey(followerId, followingId) := Edge(followerId, followingId)])
            && (!Follows(edges, followerId, followingId) ==> r2.value.1 == edges))
  {
    var key := EdgeKey(followerId, followingId);
    var e1 := Toggle(edges, followerId, followingId, None, None).value.1;
    if Follows(edges, followerId, followingId) {
      assert e1 == edges - {key};
      assert !Follows(e1, followerId, followingId);
      assert followerId != followingId ==>
        Toggle(e1, followerId, followingId, None, None).value.1 == e1[key := Edge(followerId, followingId)];
      assert e1[key := Edge(followerId, followingId)] == edges[key := Edge(followerId, followingId)];
    } else {
      assert e1 == edges[key := Edge(followerId, followingId)];
      assert Follows(e1, followerId, followingId);
      assert Toggle(e1, followerId, followingId, None, None).value.1 == e1 - {key};
      assert e1 - {key} == edges;
    }
  }

  /** After a successful follow the followed id is among the follower's following ids. */
  lemma FollowListed(edges: Edges, followerId: string, followingId: string)
    requires Follow(edges, followerId, followingId, None).Ok?
    ensures followingId in FollowingSet(Follow(edges, followerId, followingId, None).value, followerId)
  {
    var e := Follow(edges, followerId, followingId, None).value;
    var key := EdgeKey(followerId, followingId);
    assert key in e && e[key].followerId == followerId && e[key].followingId == followingId;
  }

  /** Following and unfollowing keep every document under its own edge's id. */
  lemma TransitionsKeepKeys(edges: Edges, followerId: string, followingId: string, fault: Option<string>)
    requires WellKeyed(edges)
    ensures Follow(edges, followerId, followingId, fault).Ok? ==> WellKeyed(Follow(edges, followerId, followingId, fault).value)
    ensures Unfollow(edges, followerId, followingId, fault).Ok? ==> WellKeyed(Unfollow(edges, followerId, followingId, fault).value)
  {
  }

  // ---------------------------------------------------------------- the store

  /** The `relationships` collection. */
  class RelationshipStore {
    var edges: Edges

    constructor (initial: Edges)
      ensures edges == initial
    {
      edges := initial;
    }

    /** `followUser`; `fault` is the failure of the write, if it fails. */
    method FollowUser(followerId: string, followingId: string, fault: Option<string>) returns (r: Outcome<string>)
      modifies this
      ensures var t := Follow(old(edges), followerId, followingId, fault);
        && (t.Ok? ==> r.Pass? && edges == t.value)
        && (t.Err? ==> r == Fail(t.error) && edges == old(edges))
    {
      if followerId == "" || followingId == "" {
        return Fail("followUser: ids required");
      }
      if followerId == followingId {
        return Fail("followUser: cannot follow yourself");
      }
      if fault.Some? {
        return Fail(fault.value);
      }
      edges := edges[EdgeKey(followerId, followingId) := Edge(followerId, followingId)];
      r := Pass;
    }

    /** `unfollowUser`; a failed delete is rethrown with the `unfollowUser: ` prefix. */
    method UnfollowUser(followerId: string, followingId: string, fault: Option<string>) returns (r: Outcome<string>)
      modifies this
      ensures var t := Unfollow(old(edges), followerId, followingId, fault);
        && (t.Ok? ==> r.Pass? && edges == t.value)
        && (t.Err? ==> r == Fail(t.error) && edges == old(edges))
    {
      if followerId == "" || followingId == "" {
        return Fail("unfollowUser: ids required");
      }
      if fault.Some? {
        var msg := if fault.value == "" then "Unfollow failed" else fault.value;
        return Fail("unfollowUser: " + msg);
      }
      edges := edges - {EdgeKey(followerId, followingId)};
      r := Pass;
    }

    /** `isFollowing`; `readFault` is the failure of the read, if it fails. */
    method IsFollowing(followerId: string, followingId: string, readFault: Option<string>) returns (r: Result<bool, string>)
      ensures r.Err? <==> followerId != "" && followingId != "" && readFault.Some?
      ensures r.Err? ==> r.error == readFault.value
      ensures r.Ok? ==> r.value == Follows(edges, followerId, followingId)
    {
      if followerId == "" || followingId == "" {
        return Ok(false);
      }
      if readFault.Some? {
        return Err(readFault.value);
      }
      r := Ok(EdgeKey(followerId, followingId) in edges);
    }

    /** `toggleFollow`: unfollow when following, else follow; the new state on success. */
    method ToggleFollow(followerId: string, followingId: string, readFault: Option<string>, fault: Option<string>) returns (r: Result<bool, string>)
      modifies this
      ensures var t := Toggle(old(edges), followerId, followingId, readFault, fault);
        && (t.Ok? ==> r == Ok(t.value.0) && edges == t.value.1)
        && (t.Err? ==> r == Err(t.error) && edges == old(edges))
    {
      var read := IsFollowing(followerId, followingId, readFault);
      if read.Err? {
        return Err(read.error);
      }
      if read.value {
        var o := UnfollowUser(followerId, followingId, fault);
        if o.Fail? {
          return Err(o.error);
        }
        return Ok(false);
      }
      var o := FollowUser(followerId, followingId, fault);
      if o.Fail? {
        return Err(o.error);
      }
      r := Ok(true);
    }

    /**
     * `getFollowingIds` (`side` false) and `getFollowerIds` (`side` true): the other end of
     * every edge whose `followerId` (resp. `followingId`) is `id`, in the order the store
     * lists the documents. `order` is that order of document ids.
     */
    method EdgeEnds(id: string, side: bool) returns (ids: seq<string>, ghost order: seq<string>)
      ensures |order| == |ids| && NoDup(order)
      ensures forall i :: 0 <= i < |order| ==>
        order[i] in edges && Near(edges[order[i]], side) == id && ids[i] == Far(edges[order[i]], side)
      ensures forall k :: k in edges && Near(edges[k], side) == id ==> k in order
    {
      ids, order := [], [];
      var todo := edges.Keys;
      while todo != {}
        invariant todo <= edges.Keys
        invariant |order| == |ids| && NoDup(order)
        invariant forall i :: 0 <= i < |order| ==>
          order[i] in edges && order[i] !in todo && Near(edges[order[i]], side) == id && ids[i] == Far(edges[order[i]], side)
        invariant forall k :: k in edges && k !in todo && Near(edges[k], side) == id ==> k in order
        decreases |todo|
      {
        var k :| k in todo;
        if Near(edges[k], side) == id {
          ids, order := ids + [Far(edges[k], side)], order + [k];
        }
        todo := todo - {k};
      }
    }

    method GetFollowingIds(followerId: string) returns (ids: seq<string>)
      ensures forall g :: g in ids <==> g in FollowingSet(edges, followerId)
    {
      ghost var order;
      ids, order := EdgeEnds(followerId, false);
      forall g | g in FollowingSet(edges, followerId) ensures g in ids {
        var k :| k in edges && edges[k].followerId == followerId && edges[k].followingId == g;
        assert k in order;
        var i :| 0 <= i < |order| && order[i] == k;
        assert ids[i] == g;
      }
    }

    method GetFollowerIds(followingId: string) returns (ids: seq<string>)
      ensures forall f :: f in ids <==> f in FollowerSet(edges, followingId)
    {
      ghost var order;
      ids, order := EdgeEnds(followingId, true);
      forall f | f in FollowerSet(edges, followingId) ensures f in ids {
        var k :| k in edges && edges[k].followingId == followingId && edges[k].followerId == f;
        assert k in order;
        var i :| 0 <= i < |order| && order[i] == k;
        assert ids[i] == f;
      }
    }
  }

  /** The end of an edge a query matches on: the follower (false) or the followed user (true). */
  function Near(e: Edge, side: bool): string
  {
    if side then e.followingId else e.followerId
  }

  /** The end of an edge a query returns. */
  function Far(e: Edge, side: bool): string
  {
    if side then e.followerId else e.followingId
  }

  /** The ids following `followingId`, one per matching edge document. */
  function FollowerSet(edges: Edges, followingId: string): set<string>
  {
    set k | k in edges && edges[k].followingId == followingId :: edges[k].followerId
  }

  // ---------------------------------------------------------------- user lookups

  /** The user documents that exist among `uids`, in input order. */
  function FoundUsers(uids: seq<string>, users: string -> UserLookup): (r: seq<Doc>)
    ensures |r| <= |uids|
  {
    if uids == [] then []
    else
      var init := FoundUsers(uids[..|uids| - 1], users);
      match users(uids[|uids| - 1])
      case Found(d) => init + [d]
      case _ => init
  }

  /** Every returned document is an existing user's, and each existing user among `uids` is returned. */
  lemma {:induction false} FoundUsersMeaning(uids: seq<string>, users: string -> UserLookup)
    ensures forall d :: d in FoundUsers(uids, users) <==>
      exists i :: 0 <= i < |uids| && users(uids[i]) == Found(d)
  {
    if uids != [] {
      var init := uids[..|uids| - 1];
      FoundUsersMeaning(init, users);
      forall d ensures d in FoundUsers(uids, users) <==> exists i :: 0 <= i < |uids| && users(uids[i]) == Found(d) {
        if exists i :: 0 <= i < |uids| && users(uids[i]) == Found(d) {
          var i :| 0 <= i < |uids| && users(uids[i]) == Found(d);
          if i < |init| {
            assert init[i] == uids[i];
          }
        }
        if exists i :: 0 <= i < |init| && users(init[i]) == Found(d) {
          var i :| 0 <= i < |init| && users(init[i]) == Found(d);
          assert uids[i] == init[i];
        }
      }
    }
  }

  /**
   * `getUsersByIds`: the documents of the users that exist; failed reads are skipped. The
   * source collects them in completion order, so only the multiset of results is promised.
   */
  method GetUsersByIds(uids: Option<seq<string>>, users: string -> UserLookup) returns (results: seq<Doc>)
    ensures var ids := if uids.Some? then uids.value else [];
      multiset(results) == multiset(FoundUsers(ids, users)) && |results| <= |ids|
  {
    var ids := if uids.Some? then uids.value else [];
    results := [];
    var i := 0;
    while i < |ids|
      invariant 0 <= i <= |ids|
      invariant results == FoundUsers(ids[..i], users)
    {
      var next := ids[..i + 1];
      assert next[..i] == ids[..i] && next[i] == ids[i];
      match users(ids[i]) {
        case Found(d) => results := results + [d];
        case _ =>
      }
      i := i + 1;
    }
    assert ids[..i] == ids;
  }

  // ---------------------------------------------------------------- username search

  /** Lexicographic order of strings by character. */
  predicate LexLe(a: string, b: string)
  {
    a == [] || (b != [] && (a[0] < b[0] || (a[0] == b[0] && LexLe(a[1..], b[1..]))))
  }

  /** The upper bound of the prefix query: the term followed by U+F8FF. */
  function Upper(term: string): string
  {
    term + "\U{F8FF}"
  }

  /** `username >= term && username <= term + "\uf8ff"`, on string usernames only. */
  predicate InUsernameRange(d: Doc, term: string)
  {
    Field(d, "username").Str? && LexLe(term, Field(d, "username").s) && LexLe(Field(d, "username").s, Upper(term))
  }

  /** `findUsersByUsername`: no users for an empty term, else those whose username is in range. */
  function FindUsersByUsername(term: string, users: seq<Doc>): (r: seq<Doc>)
    ensures term == "" ==> r == []
    ensures term != "" ==> forall d :: d in r <==> d in users && InUsernameRange(d, term)
  {
    if term == "" then [] else Filter(users, (d: Doc) => InUsernameRange(d, term))
  }

  /** Every username in the query's range starts with the term. */
  lemma {:induction false} RangeIsPrefix(term: string, u: string)
    requires LexLe(term, u) && LexLe(u, Upper(term))
    ensures |term| <= |u| && u[..|term|] == term
  {
    if term != [] {
      assert u != [];
      assert Upper(term)[0] == term[0] && Upper(term)[1..] == Upper(term[1..]);
      assert u[0] == term[0];
      RangeIsPrefix(term[1..], u[1..]);
    }
  }

  /** A username that is the term, or the term followed by a character below U+F8FF, is in range. */
  lemma {:induction false} PrefixInRange(term: string, rest: string)
    requires rest == [] || rest[0] < '\U{F8FF}'
    ensures LexLe(term, term + rest) && LexLe(term + rest, Upper(term))
  {
    if term != [] {
      assert (term + rest)[0] == term[0] && (term + rest)[1..] == term[1..] + rest;
      assert Upper(term)[0] == term[0] && Upper(term)[1..] == Upper(term[1..]);
      PrefixInRange(term[1..], rest);
    } else {
      assert Upper(term) == "\U{F8FF}";
    }
  }
}
