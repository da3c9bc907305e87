/** A page of one thread's conversation, from the pages of its participant indexes (`conversation` and
    `_source_sequences` of src/agent_comms/bus.py).
 */
module Paging {
  import opened Options

  // Newest first when descending, else oldest first.
  predicate Precedes(descending: bool, a: nat, b: nat) {
    if descending then a > b else a < b
  }

  predicate IsFirst(positions: set<nat>, descending: bool, f: nat) {
    f in positions && forall x :: x in positions && x != f ==> Precedes(descending, f, x)
  }

  lemma FirstExists(positions: set<nat>, descending: bool, x: nat)
    requires x in positions
    ensures exists f: nat :: IsFirst(positions, descending, f)
  {
    if y: nat :| y in positions && Precedes(descending, y, x) {
      var rest := positions - {x};
      FirstExists(rest, descending, y);
      var f: nat :| IsFirst(rest, descending, f);
      assert positions == rest + {x};
      assert IsFirst(positions, descending, f);
    } else {
      assert IsFirst(positions, descending, x);
    }
  }

  function First(positions: set<nat>, descending: bool): (f: nat)
    requires positions != {}
    ensures IsFirst(positions, descending, f)
  {
    assert exists f: nat :: IsFirst(positions, descending, f) by {
      var x: nat :| x in positions;
      FirstExists(positions, descending, x);
    }
    var f: nat :| IsFirst(positions, descending, f);
    f
  }

  // The first positions in order, at most `limit`.
  function Page(positions: set<nat>, limit: nat, descending: bool): seq<nat> {
    if limit == 0 || positions == {} then []
    else
      var f := First(positions, descending);
      [f] + Page(positions - {f}, limit - 1, descending)
  }

  // A page holds positions, in order and once each; it stops only at its limit, and what it leaves out
  // follows everything it holds.
  lemma {:induction false} PageIsTheFirst(positions: set<nat>, limit: nat, descending: bool)
    ensures var page := Page(positions, limit, descending);
            && (forall x :: x in page ==> x in positions)
            && (forall i, j :: 0 <= i < j < |page| ==> Precedes(descending, page[i], page[j]))
            && (forall x, y :: x in page && y in positions && y !in page ==> Precedes(descending, x, y))
            && |page| <= limit
            && (|page| < limit ==> forall x :: x in positions ==> x in page)
  {
    if limit != 0 && positions != {} {
      var f := First(positions, descending);
      PageIsTheFirst(positions - {f}, limit - 1, descending);
      var page, rest := Page(positions, limit, descending), Page(positions - {f}, limit - 1, descending);
      assert page[0] == f && forall i :: 0 < i < |page| ==> page[i] == rest[i - 1];
      assert forall i :: 0 <= i < |rest| ==> rest[i] in rest;
      assert forall x :: x in page <==> x == f || x in rest;
    }
  }

  // Whoever is on the page of a larger set is on the page of a smaller one that holds it.
  lemma {:induction false} SmallerKeepsItsFirst(smaller: set<nat>, larger: set<nat>, limit: nat, descending: bool,
                                                x: nat)
    requires smaller <= larger && x in smaller && x in Page(larger, limit, descending)
    ensures x in Page(smaller, limit, descending)
  {
    var f := First(larger, descending);
    if x != f {
      assert x in Page(larger - {f}, limit - 1, descending);
      if f in smaller {
        assert First(smaller, descending) == f;
        SmallerKeepsItsFirst(smaller - {f}, larger - {f}, limit - 1, descending, x);
      } else {
        SmallerKeepsItsFirst(smaller, larger - {f}, limit - 1, descending, x);
        LongerPageHolds(smaller, limit - 1, descending, x);
      }
    } else {
      assert First(smaller, descending) == f;
    }
  }

  lemma {:induction false} LongerPageHolds(positions: set<nat>, limit: nat, descending: bool, x: nat)
    requires x in Page(positions, limit, descending)
    ensures x in Page(positions, limit + 1, descending)
  {
    var f := First(positions, descending);
    if x != f {
      LongerPageHolds(positions - {f}, limit - 1, descending, x);
    }
  }

  // Any part that keeps the page has the same page.
  lemma {:induction false} PartHasTheSamePage(part: set<nat>, positions: set<nat>, limit: nat, descending: bool)
    requires part <= positions && forall x :: x in Page(positions, limit, descending) ==> x in part
    ensures Page(part, limit, descending) == Page(positions, limit, descending)
  {
    if limit != 0 && positions != {} {
      var f := First(positions, descending);
      var page := Page(positions, limit, descending);
      assert page[0] == f && f in page;
      assert f in part;
      assert First(part, descending) == f;
      forall x | x in Page(positions - {f}, limit - 1, descending) ensures x in part - {f} {
        assert x in page;
        PageIsTheFirst(positions - {f}, limit - 1, descending);
      }
      PartHasTheSamePage(part - {f}, positions - {f}, limit - 1, descending);
    }
  }

  // ---- Conversations ---------------------------------------------------------------------------------------

  function InAny(sources: seq<set<nat>>): set<nat> {
    if sources == [] then {} else InAny(sources[..|sources| - 1]) + sources[|sources| - 1]
  }

  // The positions between two bounds, among some when any are given.
  function Selected(source: set<nat>, after: nat, before: nat, sequences: set<nat>): set<nat> {
    set x | x in source && after < x < before && (sequences == {} || x in sequences)
  }

  function Members(page: seq<nat>): set<nat> {
    set x | x in page
  }

  // One page of a thread's conversation is the page of everything its indexes hold, although each index
  // is read no further than the limit.
  method Conversation(sources: seq<set<nat>>, after: nat, before: Option<nat>, last: nat, limit: nat,
                      descending: bool, sequences: set<nat>)
      returns (page: seq<nat>)
    ensures page == Page(Selected(InAny(sources), after, if before.Some? then before.value else last + 1, sequences),
        limit, descending)
  {
    var end := if before.Some? then before.value else last + 1;
    var positions: set<nat> := {};
    for i := 0 to |sources|
      invariant Gathered(sources[..i], after, end, sequences, limit, descending, positions)
    {
      var selected := Page(Selected(sources[i], after, end, sequences), limit, descending);
      GatherOne(sources, i, after, end, sequences, limit, descending, positions);
      positions := positions + Members(selected);
    }
    assert sources[..|sources|] == sources;
    page := Page(positions, limit, descending);
    GatheredHasThePage(sources, after, end, sequences, limit, descending, positions);
  }

  // The gathered positions are some of the selected ones, with every page entry among them.
  ghost predicate Gathered(sources: seq<set<nat>>, after: nat, end: nat, sequences: set<nat>, limit: nat,
                           descending: bool, positions: set<nat>) {
    && positions <= Selected(InAny(sources), after, end, sequences)
    && forall i, x :: 0 <= i < |sources| && x in Page(Selected(sources[i], after, end, sequences), limit, descending)
         ==> x in positions
  }

  lemma GatherOne(sources: seq<set<nat>>, i: nat, after: nat, end: nat, sequences: set<nat>, limit: nat,
                  descending: bool, positions: set<nat>)
    requires i < |sources| && Gathered(sources[..i], after, end, sequences, limit, descending, positions)
    ensures var selected := Page(Selected(sources[i], after, end, sequences), limit, descending);
            Gathered(sources[..i + 1], after, end, sequences, limit, descending, positions + Members(selected))
  {
    assert sources[..i + 1][..i] == sources[..i];
    PageIsTheFirst(Selected(sources[i], after, end, sequences), limit, descending);
    var longer := sources[..i + 1];
    forall j, x | 0 <= j < |longer| && x in Page(Selected(longer[j], after, end, sequences), limit, descending)
      ensures x in positions + Members(Page(Selected(sources[i], after, end, sequences), limit, descending))
    {
      if j < i {
        assert sources[..i][j] == longer[j];
      }
    }
  }

  lemma {:induction false} InAnyHolds(sources: seq<set<nat>>, x: nat)
    ensures x in InAny(sources) <==> exists i :: 0 <= i < |sources| && x in sources[i]
  {
    if sources != [] {
      InAnyHolds(sources[..|sources| - 1], x);
      assert forall i :: 0 <= i < |sources| - 1 ==> sources[..|sources| - 1][i] == sources[i];
    }
  }

  lemma GatheredHasThePage(sources: seq<set<nat>>, after: nat, end: nat, sequences: set<nat>, limit: nat,
                           descending: bool, positions: set<nat>)
    requires Gathered(sources, after, end, sequences, limit, descending, positions)
    ensures Page(positions, limit, descending)
        == Page(Selected(InAny(sources), after, end, sequences), limit, descending)
  {
    var all := Selected(InAny(sources), after, end, sequences);
    forall x | x in Page(all, limit, descending) ensures x in positions {
      PageIsTheFirst(all, limit, descending);
      InAnyHolds(sources, x);
      var i :| 0 <= i < |sources| && x in sources[i];
      var own := Selected(sources[i], after, end, sequences);
      assert own <= all by {
        forall y | y in own ensures y in all { InAnyHolds(sources, y); }
      }
      SmallerKeepsItsFirst(own, all, limit, descending, x);
    }
    PartHasTheSamePage(positions, all, limit, descending);
  }
}
