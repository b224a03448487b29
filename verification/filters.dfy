/**
 * The genre buttons of the search filters: a click on genre `g` removes it from the selection
 * when it is there and appends it otherwise.
 */
module FiltersSidebar {
  import opened Seqs

  /** The selection after a click on `g`. */
  function ToggleGenre(prev: seq<real>, g: real): (r: seq<real>)
    ensures g in prev ==> g !in r
    ensures g !in prev ==> r == prev + [g]
  {
    if g in prev then Filter(prev, (id: real) => id != g) else prev + [g]
  }

  /** The ids other than `g`, in order. */
  function Others(s: seq<real>, g: real): seq<real>
  {
    Filter(s, (id: real) => id != g)
  }

  /** After a click, `g` is selected exactly when it was not, and every other id keeps its membership. */
  lemma ToggleMembership(prev: seq<real>, g: real, x: real)
    ensures x in ToggleGenre(prev, g) <==> (if x == g then g !in prev else x in prev)
  {
    if g in prev && x != g && x in prev {
      var i :| 0 <= i < |prev| && prev[i] == x;
      assert Filter(prev, (id: real) => id != g) == ToggleGenre(prev, g);
    }
  }

  /** The other ids keep their relative order: removing `g` everywhere gives the same list before and after. */
  lemma {:induction false} ToggleKeepsOthers(prev: seq<real>, g: real)
    ensures Others(ToggleGenre(prev, g), g) == Others(prev, g)
  {
    var p := (id: real) => id != g;
    if g in prev {
      FilterAll(Filter(prev, p), p);
    } else {
      FilterAppend(prev, [g], p);
      FilterNone([g], p);
      assert Filter(prev, p) + [] == Filter(prev, p);
    }
  }

  /** Two clicks on a genre that was not selected give back the original list. */
  lemma ToggleTwice(prev: seq<real>, g: real)
    requires g !in prev
    ensures ToggleGenre(ToggleGenre(prev, g), g) == prev
  {
    var p := (id: real) => id != g;
    assert g in prev + [g];
    FilterAppend(prev, [g], p);
    FilterAll(prev, p);
    FilterNone([g], p);
    assert prev + [] == prev;
  }
}
