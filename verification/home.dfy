/**
 * The friend search on the home page: trim the term, run the username prefix query, keep
 * the users other than the signed-in one whose username equals the term ignoring case, and
 * show at most 10.
 */
module Home {
  import opened Wrappers
  import opened JsValues
  import opened Seqs
  import opened Relationships

  const FriendLimit: nat := 10

  /** What a search does to the shown friends: nothing, or replace them. */
  datatype FriendsUpdate = Keep | Replace(friends: seq<Doc>)

  /** `(foundUser.username || "")` as text; `None` when `toLowerCase` would throw (a truthy non-string). */
  function UsernameText(d: Doc): Option<string>
  {
    var u := Field(d, "username");
    if !Truthy(u) then Some("")
    else if u.Str? then Some(u.s)
    else None
  }

  /** The filter keeps `d`: another user whose username equals the term ignoring case. */
  predicate Keeps(d: Doc, self: Value, term: string)
  {
    Field(d, "uid") != self && UsernameText(d).Some? && Lower(UsernameText(d).value) == Lower(term)
  }

  /** The users of a query result that the filter keeps, in the result's order. */
  function Kept(res: seq<Doc>, self: Value, term: string): seq<Doc>
  {
    Filter(res, (d: Doc) => Keeps(d, self, term))
  }

  /** The filter throws on `d`: another user whose username is truthy but not text. */
  predicate ThrowsOn(d: Doc, self: Value)
  {
    Field(d, "uid") != self && UsernameText(d).None?
  }

  /**
   * `doSearch`: with no signed-in user nothing happens; a blank term clears the list without
   * a query; otherwise the query `find` runs on the trimmed term (`None` when it throws),
   * and the list becomes the first 10 kept users. A throw leaves the list as it was.
   * `queried` is the term sent to the query, if any.
   */
  function DoSearch(self: Option<Value>, term: string, find: string -> Option<seq<Doc>>): (r: (FriendsUpdate, Option<string>))
    ensures self.None? ==> r == (Keep, None)
    ensures self.Some? && Trim(term) == "" ==> r == (Replace([]), None)
    ensures self.Some? && Trim(term) != "" ==> r.1 == Some(Trim(term))
    ensures r.0.Replace? ==> |r.0.friends| <= FriendLimit
    ensures self.Some? && Trim(term) != "" ==>
      (r.0.Replace? <==>
        (find(Trim(term)).Some? &&
         forall i :: 0 <= i < |find(Trim(term)).value| ==> !ThrowsOn(find(Trim(term)).value[i], self.value)))
  {
    if self.None? then (Keep, None)
    else
      var trimmed := Trim(term);
      if trimmed == "" then (Replace([]), None)
      else
        match find(trimmed)
        case None => (Keep, Some(trimmed))
        case Some(res) =>
          if exists i :: 0 <= i < |res| && ThrowsOn(res[i], self.value) then (Keep, Some(trimmed))
          else (Replace(Take(Kept(res, self.value, trimmed), FriendLimit)), Some(trimmed))
  }

  /**
   * The shown friends are never the signed-in user, and each one's username equals the term
   * ignoring case. After a query they are the first 10 kept users of its result (all of them
   * when there are fewer), in the result's order.
   */
  lemma DoSearchMeaning(self: Value, term: string, find: string -> Option<seq<Doc>>)
    ensures var (u, _) := DoSearch(Some(self), term, find);
      u.Replace? ==> forall i :: 0 <= i < |u.friends| ==>
        && Field(u.friends[i], "uid") != self
        && Field(u.friends[i], "username").Str?
        && Lower(Field(u.friends[i], "username").s) == Lower(Trim(term))
        && (find(Trim(term)).Some? && Trim(term) != "" ==> u.friends[i] in find(Trim(term)).value)
    ensures var (u, _) := DoSearch(Some(self), term, find);
      u.Replace? && Trim(term) != "" && find(Trim(term)).Some? ==>
        var kept := Kept(find(Trim(term)).value, self, Trim(term));
        && |u.friends| == (if FriendLimit < |kept| then FriendLimit else |kept|)
        && u.friends == kept[..|u.friends|]
  {
    var (u, _) := DoSearch(Some(self), term, find);
    var trimmed := Trim(term);
    if u.Replace? && trimmed != "" {
      TrimIdempotent(term);
      ShownMeaning(self, trimmed, find(trimmed).value, u.friends);
    }
  }

  /** The first 10 kept users of `res` are users of `res` that the filter keeps. */
  lemma ShownMeaning(self: Value, trimmed: string, res: seq<Doc>, shown: seq<Doc>)
    requires Trim(trimmed) == trimmed && trimmed != ""
    requires shown == Take(Kept(res, self, trimmed), FriendLimit)
    ensures forall i :: 0 <= i < |shown| ==>
      && Field(shown[i], "uid") != self
      && Field(shown[i], "username").Str?
      && Lower(Field(shown[i], "username").s) == Lower(trimmed)
      && shown[i] in res
  {
    var kept := Kept(res, self, trimmed);
    forall i | 0 <= i < |shown|
      ensures Field(shown[i], "uid") != self
      ensures Field(shown[i], "username").Str?
      ensures Lower(Field(shown[i], "username").s) == Lower(trimmed)
      ensures shown[i] in res
    {
      assert shown[i] == kept[i] && kept[i] in kept;
      NonEmptyUsername(trimmed, shown[i]);
    }
  }

  /** A user kept for a non-blank term has a non-empty text username. */
  lemma NonEmptyUsername(term: string, d: Doc)
    requires Trim(term) == term && term != ""
    requires UsernameText(d).Some? && Lower(UsernameText(d).value) == Lower(term)
    ensures Field(d, "username").Str?
  {
    assert |Lower(UsernameText(d).value)| == |term| > 0;
  }

  /**
   * Over the username prefix query the search is case-sensitive after all: every user in
   * range starts with the exact term, so a username equal to it ignoring case is equal to it.
   * The users kept are exactly the others whose username is the trimmed term.
   */
  lemma {:induction false} PrefixQueryKeepsExact(self: Value, term: string, users: seq<Doc>, d: Doc)
    requires Trim(term) != ""
    ensures var found := FindUsersByUsername(Trim(term), users);
      d in found && Keeps(d, self, Trim(term)) <==>
        d in users && Field(d, "uid") != self && Field(d, "username") == Str(Trim(term))
  {
    var t := Trim(term);
    var found := FindUsersByUsername(t, users);
    if d in found && Keeps(d, self, t) {
      var u := Field(d, "username").s;
      RangeIsPrefix(t, u);
      SameLowerSameText(t, u);
    }
    if d in users && Field(d, "uid") != self && Field(d, "username") == Str(t) {
      PrefixInRange(t, "");
      assert t + "" == t;
    }
  }

  /** A text that starts with `t` and equals it ignoring case is `t` itself. */
  lemma SameLowerSameText(t: string, u: string)
    requires |t| <= |u| && u[..|t|] == t && Lower(u) == Lower(t)
    ensures u == t
  {
    assert |u| == |Lower(u)| == |Lower(t)| == |t|;
    assert u == u[..|t|];
  }

  /**
   * A username that equals the term only ignoring case is never shown: the prefix query
   * has no case folding, so the case-insensitive comparison after it never widens the result.
   */
  lemma CaseDiffersNotFound(self: Value, term: string, users: seq<Doc>, d: Doc, u: string)
    requires Trim(term) != ""
    requires Field(d, "username") == Str(u) && Lower(u) == Lower(Trim(term)) && u != Trim(term)
    ensures !(d in FindUsersByUsername(Trim(term), users) && Keeps(d, self, Trim(term)))
  {
    PrefixQueryKeepsExact(self, term, users, d);
  }
}
