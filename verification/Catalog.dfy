/** The channel catalog: a parent relation that must stay a forest, and tag renames and deletions
    as whole-document changes (src/agent_comms/catalog_document.py and catalog_store.py).
 */
module Catalog {

  import opened Options

  datatype Preferences = Preferences(
    order: string, createdAt: int, pinned: bool, parent: Option<string>, archived: bool, anyMode: bool,
    pinnedThreads: set<string>)

  datatype Match = AnyOf | AllOf

  datatype View = View(name: string, matching: Match, tags: set<string>, createdAt: int, originalTargets: set<string>)

  type PreferenceMap = map<string, Preferences>

  datatype Document = Document(preferences: PreferenceMap, tags: set<string>, views: map<string, View>)

  const DECLARED_TAGS := {"comms", "teammates"}
  const BUILTIN_ADDRESSES := {"#any", "#none", "#all"}
  const TAG_CHARACTERS := "abcdefghijklmnopqrstuvwxyz0123456789-_"

  // Where a tag or view is addressed; what is an address already stays.
  function Address(name: string): string {
    if "#" <= name then name else "#" + name
  }

  predicate ValidTag(tag: string) {
    && tag != ""
    && (forall i :: 0 <= i < |tag| ==> tag[i] in TAG_CHARACTERS)
    && Address(tag) !in BUILTIN_ADDRESSES
  }

  lemma AddressesApart(a: string, b: string)
    requires ValidTag(a) && ValidTag(b)
    ensures Address(a) == Address(b) <==> a == b
  {
    assert a[0] != '#' && b[0] != '#';
    assert a == ("#" + a)[1..] && b == ("#" + b)[1..];
  }

  // ---- The parent relation --------------------------------------------------------------------

  function ParentOf(p: PreferenceMap, name: string): Option<string> {
    if name in p then p[name].parent else None
  }

  // The `k`-th name above `name`, if the chain is that long.
  function Up(p: PreferenceMap, name: string, k: nat): Option<string>
    decreases k
  {
    if k == 0 then Some(name)
    else
      var parent := ParentOf(p, name);
      if parent.None? then None else Up(p, parent.value, k - 1)
  }

  ghost predicate Above(p: PreferenceMap, name: string, ancestor: string) {
    exists k: nat :: k > 0 && Up(p, name, k) == Some(ancestor)
  }

  ghost predicate Grounded(p: PreferenceMap, name: string) {
    exists k: nat :: Up(p, name, k).None?
  }

  // Every chain of parents ends.
  ghost predicate Forest(p: PreferenceMap) {
    forall name :: name in p ==> Grounded(p, name)
  }

  lemma {:induction false} UpAdds(p: PreferenceMap, name: string, i: nat, j: nat)
    requires Up(p, name, i).Some?
    ensures Up(p, name, i + j) == Up(p, Up(p, name, i).value, j)
    decreases i
  {
    if i > 0 {
      UpAdds(p, ParentOf(p, name).value, i - 1, j);
    }
  }

  lemma GroundedByParent(p: PreferenceMap, name: string)
    ensures Grounded(p, name) <==> ParentOf(p, name).None? || Grounded(p, ParentOf(p, name).value)
  {
    if ParentOf(p, name).None? {
      assert Up(p, name, 1).None?;
    } else {
      var parent := ParentOf(p, name).value;
      if Grounded(p, parent) {
        var k: nat :| Up(p, parent, k).None?;
        assert Up(p, name, k + 1).None?;
      }
      if Grounded(p, name) {
        var k: nat :| Up(p, name, k).None?;
        assert Up(p, parent, k - 1).None?;
      }
    }
  }

  lemma {:induction false} LoopNeverEnds(p: PreferenceMap, name: string, period: nat, k: nat)
    requires period > 0 && Up(p, name, period) == Some(name)
    ensures Up(p, name, k).Some?
    decreases k
  {
    if k < period {
      if Up(p, name, k).None? {
        EndsForGood(p, name, k, period);
      }
    } else {
      LoopNeverEnds(p, name, period, k - period);
      UpAdds(p, name, period, k - period);
    }
  }

  lemma {:induction false} EndsForGood(p: PreferenceMap, name: string, i: nat, k: nat)
    requires Up(p, name, i).None? && i <= k
    ensures Up(p, name, k).None?
    decreases i
  {
    if ParentOf(p, name).Some? {
      EndsForGood(p, ParentOf(p, name).value, i - 1, k - 1);
    }
  }

  lemma CycleIsNoForest(p: PreferenceMap, name: string)
    requires Above(p, name, name)
    ensures !Forest(p)
  {
    var period: nat :| period > 0 && Up(p, name, period) == Some(name);
    assert name in p;
    if Forest(p) {
      var k: nat :| Up(p, name, k).None?;
      LoopNeverEnds(p, name, period, k);
    }
  }

  // `n` is among the first `k` names of the chain.
  ghost predicate MetBefore(p: PreferenceMap, name: string, k: nat, n: string) {
    exists j: nat :: j < k && Up(p, name, j) == Some(n)
  }

  // A walk that keeps meeting new names runs out of them.
  lemma {:induction false} WalkEnds(p: PreferenceMap, name: string, k: nat, visited: set<string>)
    requires forall n :: !Above(p, n, n)
    requires Up(p, name, k).Some?
    requires forall n :: n in visited ==> MetBefore(p, name, k, n)
    ensures Grounded(p, name)
    decreases p.Keys - visited
  {
    var here := Up(p, name, k).value;
    if here in visited {
      assert MetBefore(p, name, k, here);
      var j: nat :| j < k && Up(p, name, j) == Some(here);
      UpAdds(p, name, j, k - j);
      assert Above(p, here, here);
    } else {
      UpAdds(p, name, k, 1);
      if ParentOf(p, here).None? {
        assert Up(p, here, 1).None?;
      } else {
        assert Up(p, here, 1) == Some(ParentOf(p, here).value);
        assert here in p.Keys - visited;
        forall n | n in visited + {here} ensures MetBefore(p, name, k + 1, n) {
          if n == here {
            assert Up(p, name, k) == Some(n);
          } else {
            assert MetBefore(p, name, k, n);
          }
        }
        WalkEnds(p, name, k + 1, visited + {here});
      }
    }
  }

  // The two ways to say it: every chain ends, and no name is above itself.
  lemma ForestHasNoCycle(p: PreferenceMap)
    ensures Forest(p) <==> forall n :: !Above(p, n, n)
  {
    if Forest(p) {
      forall n ensures !Above(p, n, n) {
        if Above(p, n, n) { CycleIsNoForest(p, n); }
      }
    }
    if forall n :: !Above(p, n, n) {
      forall name | name in p ensures Grounded(p, name) { WalkEnds(p, name, 0, {}); }
    }
  }

  lemma EveryNameGrounded(p: PreferenceMap, name: string)
    requires Forest(p)
    ensures Grounded(p, name)
  {
    if name !in p {
      assert Up(p, name, 1).None?;
    }
  }

  method ValidateParents(p: PreferenceMap) returns (accepted: bool)
    ensures accepted <==> Forest(p)
  {
    var names := p.Keys;
    while names != {}
      invariant names <= p.Keys
      invariant forall n :: n in p.Keys - names ==> Grounded(p, n)
      decreases names
    {
      var name :| name in names;
      names := names - {name};
      var visited := {};
      var parent := Some(name);
      ghost var k: nat := 0;
      while parent.Some?
        invariant parent == Up(p, name, k)
        invariant forall n :: n in visited ==> MetBefore(p, name, k, n)
        decreases p.Keys - visited, parent.Some?
      {
        if parent.value in visited {
          assert MetBefore(p, name, k, parent.value);
          ghost var j: nat :| j < k && Up(p, name, j) == parent;
          UpAdds(p, name, j, k - j);
          assert Above(p, parent.value, parent.value);
          CycleIsNoForest(p, parent.value);
          return false;
        }
        UpAdds(p, name, k, 1);
        assert Up(p, parent.value, 1) == ParentOf(p, parent.value);
        visited := visited + {parent.value};
        parent := ParentOf(p, parent.value);
        k := k + 1;
      }
    }
    accepted := true;
  }

  // ---- Moving a channel under a parent --------------------------------------------------------

  function WithParent(p: PreferenceMap, name: string, parent: Option<string>, archived: bool): PreferenceMap
    requires name in p
  {
    p[name := p[name].(parent := parent, archived := archived)]
  }

  // A chain that never meets `name` is the same chain after `name` moved.
  lemma {:induction false} MoveLeavesOthers(p: PreferenceMap, name: string, parent: Option<string>, archived: bool,
                                            n: string, k: nat)
    requires name in p
    requires forall j: nat :: j < k ==> Up(p, n, j) != Some(name)
    ensures Up(WithParent(p, name, parent, archived), n, k) == Up(p, n, k)
    decreases k
  {
    if k > 0 {
      assert Up(p, n, 0) == Some(n);
      if ParentOf(p, n).Some? {
        var m := ParentOf(p, n).value;
        forall j: nat | j < k - 1 ensures Up(p, m, j) != Some(name) {
          assert Up(p, n, j + 1) == Up(p, m, j);
        }
        MoveLeavesOthers(p, name, parent, archived, m, k - 1);
      }
    }
  }

  lemma {:induction false} MoveKeepsGrounded(p: PreferenceMap, name: string, parent: Option<string>, archived: bool,
                                             n: string, k: nat)
    requires name in p && Up(p, n, k).None?
    requires Grounded(WithParent(p, name, parent, archived), name)
    ensures Grounded(WithParent(p, name, parent, archived), n)
    decreases k
  {
    var q := WithParent(p, name, parent, archived);
    GroundedByParent(q, n);
    if n != name && ParentOf(p, n).Some? {
      MoveKeepsGrounded(p, name, parent, archived, ParentOf(p, n).value, k - 1);
    }
  }

  // Putting `name` under `parent` keeps the forest exactly when `parent` is not `name` and does not
  // already sit below it.
  lemma MoveKeepsForestExactly(p: PreferenceMap, name: string, parent: string, archived: bool)
    requires Forest(p) && name in p
    ensures Forest(WithParent(p, name, Some(parent), archived)) <==> parent != name && !Above(p, parent, name)
  {
    var q := WithParent(p, name, Some(parent), archived);
    if parent != name && !Above(p, parent, name) {
      EveryNameGrounded(p, parent);
      var k: nat :| Up(p, parent, k).None?;
      assert Up(p, parent, 0) == Some(parent);
      MoveLeavesOthers(p, name, Some(parent), archived, parent, k);
      assert Grounded(q, parent);
      GroundedByParent(q, name);
      forall n | n in q ensures Grounded(q, n) {
        EveryNameGrounded(p, n);
        var m: nat :| Up(p, n, m).None?;
        MoveKeepsGrounded(p, name, Some(parent), archived, n, m);
      }
    } else {
      var k := if parent == name then 0 else FirstMeeting(p, parent, name);
      assert forall j: nat :: j < k ==> Up(p, parent, j) != Some(name);
      MoveLeavesOthers(p, name, Some(parent), archived, parent, k);
      assert Up(q, name, k + 1) == Up(q, parent, k) == Some(name);
      CycleIsNoForest(q, name);
    }
  }

  ghost function FirstMeeting(p: PreferenceMap, n: string, goal: string): (k: nat)
    requires Above(p, n, goal)
    ensures k > 0 || n == goal
    ensures Up(p, n, k) == Some(goal) && forall j: nat :: j < k ==> Up(p, n, j) != Some(goal)
  {
    var k: nat :| k > 0 && Up(p, n, k) == Some(goal);
    Earliest(p, n, goal, k, 0)
  }

  ghost function Earliest(p: PreferenceMap, n: string, goal: string, last: nat, from: nat): (k: nat)
    requires from <= last && Up(p, n, last) == Some(goal)
    requires forall j: nat :: j < from ==> Up(p, n, j) != Some(goal)
    ensures Up(p, n, k) == Some(goal) && forall j: nat :: j < k ==> Up(p, n, j) != Some(goal)
    ensures from <= k <= last
    decreases last - from
  {
    if Up(p, n, from) == Some(goal) then from else Earliest(p, n, goal, last, from + 1)
  }

  // ---- Removing a channel -----------------------------------------------------------------------

  function Removed(p: PreferenceMap, name: string): PreferenceMap {
    map child | child in p && child != name ::
      if p[child].parent == Some(name) then p[child].(parent := None) else p[child]
  }

  lemma {:induction false} RemovalKeepsGrounded(p: PreferenceMap, name: string, n: string, k: nat)
    requires Up(p, n, k).None?
    ensures Grounded(Removed(p, name), n)
    decreases k
  {
    var q := Removed(p, name);
    GroundedByParent(q, n);
    if ParentOf(q, n).Some? {
      RemovalKeepsGrounded(p, name, ParentOf(p, n).value, k - 1);
    }
  }

  lemma RemovalKeepsForest(p: PreferenceMap, name: string)
    requires Forest(p)
    ensures Forest(Removed(p, name))
    ensures name !in Removed(p, name)
    ensures forall child :: child in Removed(p, name) ==> Removed(p, name)[child].parent != Some(name)
    ensures forall child :: child in p && child != name && p[child].parent != Some(name)
                            ==> child in Removed(p, name) && Removed(p, name)[child] == p[child]
  {
    forall n | n in Removed(p, name) ensures Grounded(Removed(p, name), n) {
      var k: nat :| Up(p, n, k).None?;
      RemovalKeepsGrounded(p, name, n, k);
    }
  }

  // ---- Renaming a tag's channel -------------------------------------------------------------------

  function Reparented(p: Preferences, old_: string, new_: string): Preferences {
    if p.parent == Some(old_) then p.(parent := Some(new_)) else p
  }

  function Renamed(p: PreferenceMap, old_: string, new_: string): PreferenceMap {
    var moved := if old_ in p then (p - {old_})[new_ := p[old_]] else p;
    map child | child in moved :: Reparented(moved[child], old_, new_)
  }

  lemma RenamedParents(p: PreferenceMap, old_: string, new_: string, n: string)
    requires old_ in p && old_ != new_
    ensures ParentOf(Renamed(p, old_, new_), n)
            == (if n == old_ then None
                else
                  var parent := ParentOf(p, if n == new_ then old_ else n);
                  if parent == Some(old_) then Some(new_) else parent)
  {}

  // Above the new name stands what stood above the old one, until the chain meets the new name.
  lemma {:induction false} RenamedChain(p: PreferenceMap, old_: string, new_: string, k: nat)
    requires old_ in p && old_ != new_ && !Above(p, old_, old_) && k > 0
    requires forall j: nat :: 0 < j < k ==> Up(p, old_, j) != Some(new_)
    ensures Up(Renamed(p, old_, new_), new_, k) == Up(p, old_, k)
    decreases k
  {
    var q := Renamed(p, old_, new_);
    if k == 1 {
      RenamedParents(p, old_, new_, new_);
      assert Up(p, old_, 1) == ParentOf(p, old_) && Up(q, new_, 1) == ParentOf(q, new_);
    } else {
      RenamedChain(p, old_, new_, k - 1);
      var before := Up(p, old_, k - 1);
      if before.Some? {
        UpAdds(p, old_, k - 1, 1);
        UpAdds(q, new_, k - 1, 1);
        RenamedParents(p, old_, new_, before.value);
        assert Up(p, before.value, 1) == ParentOf(p, before.value)
            && Up(q, before.value, 1) == ParentOf(q, before.value);
        assert Up(p, old_, k) != Some(old_) && before.value != old_;
      } else {
        EndsForGood(p, old_, k - 1, k);
        EndsForGood(q, new_, k - 1, k);
      }
    }
  }

  lemma {:induction false} RenameKeepsGrounded(p: PreferenceMap, old_: string, new_: string, n: string, k: nat)
    requires old_ in p && old_ != new_ && Up(p, n, k).None?
    requires Grounded(Renamed(p, old_, new_), new_)
    ensures Grounded(Renamed(p, old_, new_), n)
    decreases k
  {
    GroundedByParent(Renamed(p, old_, new_), n);
    RenamedParents(p, old_, new_, n);
    if n != old_ && n != new_ && ParentOf(p, n).Some? && ParentOf(p, n).value != old_ {
      RenameKeepsGrounded(p, old_, new_, ParentOf(p, n).value, k - 1);
    }
  }

  lemma RenamedToSelf(p: PreferenceMap, name: string)
    ensures Renamed(p, name, name) == p
  {}

  // The rename keeps the forest exactly when the new name does not already stand above the old one.
  lemma RenameKeepsForestExactly(p: PreferenceMap, old_: string, new_: string)
    requires Forest(p) && old_ in p
    ensures Forest(Renamed(p, old_, new_)) <==> !Above(p, old_, new_)
  {
    var q := Renamed(p, old_, new_);
    ForestHasNoCycle(p);
    if old_ == new_ {
      RenamedToSelf(p, old_);
    } else if Above(p, old_, new_) {
      var k := FirstMeeting(p, old_, new_);
      RenamedChain(p, old_, new_, k);
      assert Above(q, new_, new_);
      CycleIsNoForest(q, new_);
    } else {
      var k: nat :| Up(p, old_, k).None?;
      RenamedChain(p, old_, new_, k);
      assert Grounded(q, new_);
      forall n | n in q ensures Grounded(q, n) {
        EveryNameGrounded(p, n);
        var m: nat :| Up(p, n, m).None?;
        RenameKeepsGrounded(p, old_, new_, n, m);
      }
    }
  }

  ghost predicate Unused(p: PreferenceMap, name: string) {
    name !in p && forall child :: child in p ==> p[child].parent != Some(name)
  }

  // Renaming a channel to the name of its own parent closes a cycle.
  lemma RenameCanCloseACycle(child: Preferences, parent: Preferences)
    requires child.parent == Some("#b") && parent.parent.None?
    ensures var p := map["#a" := child, "#b" := parent]; Forest(p) && !Forest(Renamed(p, "#a", "#b"))
  {
    var p := map["#a" := child, "#b" := parent];
    assert Up(p, "#b", 1).None?;
    GroundedByParent(p, "#a");
    assert Up(p, "#a", 1) == Up(p, "#b", 0) == Some("#b");
    assert Above(p, "#a", "#b");
    RenameKeepsForestExactly(p, "#a", "#b");
  }

  // A rename leaves no trace of the old name, and a name used nowhere is always safe.
  lemma RenameMovesEveryMention(p: PreferenceMap, old_: string, new_: string)
    requires Forest(p) && old_ in p && old_ != new_
    ensures Unused(Renamed(p, old_, new_), old_)
    ensures forall child :: child in p && child != old_ && child != new_
                            ==> child in Renamed(p, old_, new_)
                                 && Renamed(p, old_, new_)[child] == Reparented(p[child], old_, new_)
    ensures Unused(p, new_) ==> Forest(Renamed(p, old_, new_))
  {
    if Unused(p, new_) {
      forall k: nat | k > 0 ensures Up(p, old_, k) != Some(new_) { UnusedNeverMet(p, old_, new_, k); }
      RenameKeepsForestExactly(p, old_, new_);
    }
  }

  lemma {:induction false} UnusedNeverMet(p: PreferenceMap, n: string, name: string, k: nat)
    requires Unused(p, name) && k > 0
    ensures Up(p, n, k) != Some(name)
    decreases k
  {
    if ParentOf(p, n).Some? {
      if k == 1 {
        assert Up(p, n, 1) == ParentOf(p, n);
      } else {
        UnusedNeverMet(p, ParentOf(p, n).value, name, k - 1);
      }
    }
  }

  // Renaming back restores the preferences and parents exactly when the new name was used nowhere.
  lemma RenameBackExactly(p: PreferenceMap, old_: string, new_: string)
    requires old_ in p && old_ != new_
    ensures Renamed(Renamed(p, old_, new_), new_, old_) == p <==> Unused(p, new_)
  {
    var q := Renamed(p, old_, new_);
    var r := Renamed(q, new_, old_);
    if Unused(p, new_) {
      assert r.Keys == p.Keys;
      forall n | n in p ensures r[n] == p[n] {
        if n != old_ {
          assert n in q && q[n] == Reparented(p[n], old_, new_);
        }
      }
    } else if new_ in p {
      assert new_ !in r;
    } else {
      var child :| child in p && p[child].parent == Some(new_);
      var there := if child == old_ then new_ else child;
      assert q[there].parent == Some(new_);
      assert r[child].parent == Some(old_);
    }
  }

  // ---- Tags and saved views -------------------------------------------------------------------------

  function Changed(tags: set<string>, previous: string, current: Option<string>): set<string> {
    (tags - {previous}) + if previous in tags && current.Some? && current.value != "" then {current.value} else {}
  }

  predicate Matches(matching: Match, required: set<string>, observed: set<string>) {
    match matching
    case AnyOf => required * observed != {}
    case AllOf => required <= observed
  }

  // A match that takes two tags for one.
  predicate MatchesMerged(matching: Match, required: set<string>, observed: set<string>, a: string, b: string) {
    match matching
    case AnyOf => required * observed != {} || (a in required && b in observed) || (b in required && a in observed)
    case AllOf => required - {a, b} <= observed && (a in required || b in required ==> a in observed || b in observed)
  }

  // After a rename a view selects a thread renamed alike exactly when the old and new tag taken for one
  // match, so who it selects stays the same exactly for those it selected, or would not even then.
  lemma RenamedMembershipExactly(matching: Match, required: set<string>, observed: set<string>, previous: string,
                                 current: string)
    requires current != "" && current != previous
    ensures Matches(matching, Changed(required, previous, Some(current)), Changed(observed, previous, Some(current)))
            <==> MatchesMerged(matching, required, observed, previous, current)
    ensures (Matches(matching, Changed(required, previous, Some(current)), Changed(observed, previous, Some(current)))
             <==> Matches(matching, required, observed))
            <==> Matches(matching, required, observed)
                 || !MatchesMerged(matching, required, observed, previous, current)
  {
    var required', observed' := Changed(required, previous, Some(current)), Changed(observed, previous, Some(current));
    match matching {
      case AnyOf =>
        if required * observed != {} {
          var t :| t in required * observed;
          assert (if t == previous then current else t) in required' * observed';
        }
        if (previous in required && current in observed) || (current in required && previous in observed) {
          assert current in required' * observed';
        }
        if required' * observed' != {} {
          var t :| t in required' * observed';
          if t != current || (current in required && current in observed) {
            assert t in required * observed;
          } else if previous in required && previous in observed {
            assert previous in required * observed;
          }
        }
      case AllOf =>
        if required' <= observed' {
          assert forall t :: t in required - {previous, current} ==> t in required';
          assert previous in required || current in required ==> current in required';
        }
        if MatchesMerged(AllOf, required, observed, previous, current) {
          forall t | t in required' ensures t in observed' {
            if t != current {
              assert t in required - {previous, current};
            }
          }
        }
    }
  }

  // A thread without the new tag: its membership changes exactly in views that name the new tag already.
  lemma RenameKeepsMembership(matching: Match, required: set<string>, observed: set<string>, previous: string,
                              current: string)
    requires current != "" && current != previous && current !in observed
    ensures (Matches(matching, Changed(required, previous, Some(current)), Changed(observed, previous, Some(current)))
             <==> Matches(matching, required, observed))
            <==> Matches(matching, required, observed)
                 || current !in required || previous !in observed
                      || !Otherwise(matching, required, observed, previous, current)
  {
    RenamedMembershipExactly(matching, required, observed, previous, current);
    if matching.AnyOf? && current !in required && MatchesMerged(AnyOf, required, observed, previous, current) {
      assert required * observed != {};
    }
    if matching.AllOf? && current !in required && MatchesMerged(AllOf, required, observed, previous, current) {
      assert forall t :: t in required ==> t == previous || t in required - {previous, current};
    }
  }

  // What else the view asks of the thread, when all its tags are required.
  predicate Otherwise(matching: Match, required: set<string>, observed: set<string>, previous: string,
                      current: string) {
    matching.AllOf? ==> required - {previous, current} <= observed
  }

  lemma TagsBackExactly(tags: set<string>, previous: string, current: string)
    requires previous != current && previous != "" && current != ""
    ensures Changed(Changed(tags, previous, Some(current)), current, Some(previous)) == tags <==> current !in tags
  {
    var back := Changed(Changed(tags, previous, Some(current)), current, Some(previous));
    if current in tags {
      assert current !in back;
    }
  }

  // ---- The document as it is edited -------------------------------------------------------------------

  ghost predicate ValidDocument(d: Document) {
    && (forall t :: t in d.tags ==>
                      && ValidTag(t)
                      && Address(t) in d.preferences
                      && d.preferences[Address(t)].createdAt > 0)
    && (forall n :: n in d.views ==> d.views[n].name == n)
    && Forest(d.preferences)
  }

  predicate Renames(current: Option<string>) {
    current.Some? && current.value != ""
  }

  predicate TagChangeable(d: Document, previous: string) {
    previous !in DECLARED_TAGS && previous in d.tags
  }

  // A renamed view is built anew, so its tags are checked again.
  predicate ViewsRebuildable(d: Document, previous: string, current: Option<string>) {
    forall n :: n in d.views ==>
                  && Changed(d.views[n].tags, previous, current) != {}
                  && forall t :: t in Changed(d.views[n].tags, previous, current) ==> ValidTag(t)
  }

  function TagChanged(d: Document, previous: string, current: Option<string>): Document {
    if Renames(current) then
      Document(
        Renamed(d.preferences, Address(previous), Address(current.value)),
        Changed(d.tags, previous, current),
        map n | n in d.views :: d.views[n].(tags := Changed(d.views[n].tags, previous, current)))
    else
      Document(Removed(d.preferences, Address(previous)), Changed(d.tags, previous, None), d.views)
  }

  // A new name the caller's guard lets through: no saved view, created tag or declared tag has it.
  predicate AvailableRename(d: Document, previous: string, current: string) {
    current == previous || (Bare(current) !in d.views && current !in d.tags && current !in DECLARED_TAGS)
  }

  // What any rename does to the whole document: the old tag is gone from tags, preferences and parents;
  // the document stays valid exactly when the new name does not stand above the old; and a view selects
  // a thread renamed alike exactly when the two tags taken for one match.
  lemma RenameChangesTheCatalogExactly(d: Document, previous: string, current: string)
    requires ValidDocument(d) && TagChangeable(d, previous) && ValidTag(current) && current != previous
    ensures ValidDocument(TagChanged(d, previous, Some(current)))
            <==> !Above(d.preferences, Address(previous), Address(current))
    ensures Unused(TagChanged(d, previous, Some(current)).preferences, Address(previous))
    ensures previous !in TagChanged(d, previous, Some(current)).tags
    ensures forall n, observed :: n in d.views ==> SelectsMerged(d, previous, current, n, observed)
  {
    var e := TagChanged(d, previous, Some(current));
    AddressesApart(previous, current);
    RenameMovesEveryMention(d.preferences, Address(previous), Address(current));
    RenameKeepsForestExactly(d.preferences, Address(previous), Address(current));
    forall t | t in e.tags
      ensures ValidTag(t) && Address(t) in e.preferences && e.preferences[Address(t)].createdAt > 0
    {
      if t != current {
        AddressesApart(t, previous);
        AddressesApart(t, current);
      }
    }
    forall n, observed | n in d.views ensures SelectsMerged(d, previous, current, n, observed) {
      RenamedMembershipExactly(d.views[n].matching, d.views[n].tags, observed, previous, current);
    }
  }

  ghost predicate SelectsMerged(d: Document, previous: string, current: string, n: string, observed: set<string>)
    requires n in d.views && Renames(Some(current))
  {
    Matches(d.views[n].matching, TagChanged(d, previous, Some(current)).views[n].tags,
        Changed(observed, previous, Some(current)))
    <==> MatchesMerged(d.views[n].matching, d.views[n].tags, observed, previous, current)
  }

  // A rename to a tag used nowhere: valid, and every view selects the same threads.
  lemma FreshRenameKeepsTheCatalog(d: Document, previous: string, current: string)
    requires ValidDocument(d) && TagChangeable(d, previous) && ValidTag(current) && current != previous
    requires current !in d.tags && Unused(d.preferences, Address(current))
    requires forall n :: n in d.views ==> current !in d.views[n].tags
    ensures ValidDocument(TagChanged(d, previous, Some(current)))
    ensures forall n, observed :: n in d.views && current !in observed
                                  ==> SelectsTheSame(d, previous, current, n, observed)
  {
    RenameChangesTheCatalogExactly(d, previous, current);
    forall k: nat | k > 0 ensures Up(d.preferences, Address(previous), k) != Some(Address(current)) {
      UnusedNeverMet(d.preferences, Address(previous), Address(current), k);
    }
    forall n, observed | n in d.views && current !in observed
      ensures SelectsTheSame(d, previous, current, n, observed)
    {
      RenameKeepsMembership(d.views[n].matching, d.views[n].tags, observed, previous, current);
    }
  }

  ghost predicate SelectsTheSame(d: Document, previous: string, current: string, n: string, observed: set<string>)
    requires n in d.views && Renames(Some(current))
  {
    Matches(d.views[n].matching, TagChanged(d, previous, Some(current)).views[n].tags,
        Changed(observed, previous, Some(current)))
    <==> Matches(d.views[n].matching, d.views[n].tags, observed)
  }

  // The guard refuses merges into existing tags, but a deleted tag's name is available while views still
  // name it: deleting `current` and renaming `previous` to it lets the threads of `previous` into them.
  lemma RenameToADeletedTagChangesMembership(d: Document, previous: string, current: string, n: string)
    requires ValidDocument(d) && TagChangeable(d, previous) && TagChangeable(d, current) && previous != current
    requires n in d.views && d.views[n].matching.AnyOf? && d.views[n].tags == {current} && Bare(current) !in d.views
    ensures var deleted := TagChanged(d, current, None);
            && ValidDocument(deleted) && AvailableRename(deleted, previous, current)
            && ValidDocument(TagChanged(deleted, previous, Some(current)))
            && n in deleted.views && !Matches(AnyOf, deleted.views[n].tags, {previous})
            && Matches(AnyOf, TagChanged(deleted, previous, Some(current)).views[n].tags,
                 Changed({previous}, previous, Some(current)))
  {
    var deleted := TagChanged(d, current, None);
    DeletionKeepsTheCatalog(d, current);
    RenameChangesTheCatalogExactly(deleted, previous, current);
    forall k: nat | k > 0 ensures Up(deleted.preferences, Address(previous), k) != Some(Address(current)) {
      UnusedNeverMet(deleted.preferences, Address(previous), Address(current), k);
    }
    assert SelectsMerged(deleted, previous, current, n, {previous});
  }

  // Deleting a tag always leaves a valid catalog, with no parent naming its channel.
  lemma DeletionKeepsTheCatalog(d: Document, previous: string)
    requires ValidDocument(d) && TagChangeable(d, previous)
    ensures ValidDocument(TagChanged(d, previous, None))
    ensures Unused(TagChanged(d, previous, None).preferences, Address(previous))
  {
    var e := TagChanged(d, previous, None);
    RemovalKeepsForest(d.preferences, Address(previous));
    forall t | t in e.tags
      ensures ValidTag(t) && Address(t) in e.preferences && e.preferences[Address(t)].createdAt > 0
    {
      AddressesApart(t, previous);
    }
  }

  // The new tag is used nowhere in the document.
  ghost predicate UsedNowhere(d: Document, tag: string) {
    tag !in d.tags && Unused(d.preferences, Address(tag)) && forall n :: n in d.views ==> tag !in d.views[n].tags
  }

  // Renaming there and back restores the document exactly when the new tag was used nowhere in it.
  lemma RenameIsUndoneExactly(d: Document, previous: string, current: string)
    requires ValidDocument(d) && TagChangeable(d, previous) && ValidTag(current) && current != previous
    ensures TagChanged(TagChanged(d, previous, Some(current)), current, Some(previous)) == d
        <==> UsedNowhere(d, current)
  {
    hide Renamed, Changed, Unused, Forest, Address;
    AddressesApart(previous, current);
    RenameBackExactly(d.preferences, Address(previous), Address(current));
    TagsBackExactly(d.tags, previous, current);
    ViewsBackExactly(d, previous, current);
  }

  lemma ViewsBackExactly(d: Document, previous: string, current: string)
    requires previous != current && previous != "" && current != ""
    ensures TagChanged(TagChanged(d, previous, Some(current)), current, Some(previous)).views == d.views
            <==> forall n :: n in d.views ==> current !in d.views[n].tags
  {
    hide Renamed, Changed;
    var back := TagChanged(TagChanged(d, previous, Some(current)), current, Some(previous));
    forall n | n in d.views ensures back.views[n] == d.views[n] <==> current !in d.views[n].tags {
      TagsBackExactly(d.views[n].tags, previous, current);
    }
  }

  // ---- Which channels there are ----------------------------------------------------------------

  function Bare(name: string): string {
    if "#" <= name then name[1..] else name
  }

  // A built-in view, a saved view, a tag of this catalog or a declared one, or a channel with messages.
  predicate Known(d: Document, active: set<string>, name: string) {
    || Address(name) in BUILTIN_ADDRESSES
    || Bare(Address(name)) in d.views
    || Bare(Address(name)) in d.tags + DECLARED_TAGS
    || Address(name) in active
  }

  // Built-in channels cannot be grouped, archived or be parents.
  predicate Grouped(d: Document, active: set<string>, name: string) {
    Known(d, active, name) && Address(name) !in BUILTIN_ADDRESSES
  }

  predicate MayRegroup(d: Document, active: set<string>, name: string, parent: Option<string>) {
    Grouped(d, active, name) && (parent.Some? ==> Grouped(d, active, parent.value))
  }

  function AddressOf(name: Option<string>): Option<string> {
    if name.Some? then Some(Address(name.value)) else None
  }

  // The preferences with those of a channel listed; a saved view's start from its creation.
  function Listed(d: Document, channel: string): PreferenceMap {
    if channel in d.preferences then d.preferences
    else
      var createdAt := if Bare(channel) in d.views then d.views[Bare(channel)].createdAt else 0;
      d.preferences[channel := Preferences("created", createdAt, false, None, false, false, {})]
  }

  class CatalogDocument {
    var preferences: PreferenceMap
    var tags: set<string>
    var savedViews: map<string, View>

    constructor (d: Document)
      ensures Value() == d
    {
      preferences, tags, savedViews := d.preferences, d.tags, d.views;
    }

    function Value(): Document
      reads this
    {
      Document(preferences, tags, savedViews)
    }

    method Validate() returns (accepted: bool)
      ensures accepted <==> ValidDocument(Value())
    {
      if exists t :: t in tags && !(ValidTag(t) && Address(t) in preferences && preferences[Address(t)].createdAt > 0) {
        return false;
      }
      if exists n :: n in savedViews && savedViews[n].name != n {
        return false;
      }
      accepted := ValidateParents(preferences);
    }

    // Regroup or archive a channel; a cycle is refused after the edit.
    method SetMetadata(name: string, active: set<string>, parent: Option<string>, archived: bool)
      returns (accepted: bool)
      modifies this
      ensures tags == old(tags) && savedViews == old(savedViews)
      ensures !MayRegroup(old(Value()), active, name, parent) ==> !accepted && preferences == old(preferences)
      ensures MayRegroup(old(Value()), active, name, parent) ==>
                var before := Listed(old(Value()), Address(name));
                && preferences == WithParent(before, Address(name), AddressOf(parent), archived)
                && (accepted <==> Forest(preferences))
                && (old(Forest(preferences)) && parent.Some? ==>
                      (accepted <==> Address(parent.value) != Address(name)
                                     && !Above(before, Address(parent.value), Address(name))))
    {
      if !Grouped(Value(), active, name) || (parent.Some? && !Grouped(Value(), active, parent.value)) {
        return false;
      }
      ghost var start := preferences;
      var key := Address(name);
      preferences := Listed(Value(), key);
      ghost var before := preferences;
      preferences := preferences[key := preferences[key].(parent := AddressOf(parent), archived := archived)];
      accepted := ValidateParents(preferences);
      if Forest(start) && parent.Some? {
        UnlistedKeepsForest(start, key, before);
        MoveKeepsForestExactly(before, key, Address(parent.value), archived);
      }
    }

    method RemoveChannel(name: string)
      modifies this
      ensures Value() == old(Value()).(preferences := Removed(old(preferences), name))
    {
      preferences := preferences - {name};
      preferences := map child | child in preferences ::
        if preferences[child].parent == Some(name) then preferences[child].(parent := None) else preferences[child];
    }

    method ChangeTag(previous: string, current: Option<string>) returns (accepted: bool)
      modifies this
      ensures accepted <==> TagChangeable(old(Value()), previous)
                            && (Renames(current) ==> ViewsRebuildable(old(Value()), previous, current))
      ensures accepted ==> Value() == TagChanged(old(Value()), previous, current)
      ensures !TagChangeable(old(Value()), previous) ==> Value() == old(Value())
    {
      if previous in DECLARED_TAGS || previous !in tags {
        return false;
      }
      ghost var start := Value();
      var oldTarget := Address(previous);
      if Renames(current) {
        var newTarget := Address(current.value);
        if oldTarget in preferences {
          var preference := preferences[oldTarget];
          preferences := preferences - {oldTarget};
          preferences := preferences[newTarget := preference];
        }
        preferences := map child | child in preferences :: Reparented(preferences[child], oldTarget, newTarget);
        if !ViewsRebuildable(Value(), previous, current) {
          return false;
        }
        savedViews := map n | n in savedViews :: savedViews[n].(tags := Changed(savedViews[n].tags, previous, current));
      } else {
        RemoveChannel(oldTarget);
      }
      tags := Changed(tags, previous, if Renames(current) then current else None);
      accepted := true;
    }
  }

  // A channel listed for the first time, with no parent, changes no chain.
  lemma UnlistedKeepsForest(p: PreferenceMap, name: string, q: PreferenceMap)
    requires Forest(p)
    requires name in p ==> q == p
    requires name !in p ==> exists v: Preferences :: v.parent.None? && q == p[name := v]
    ensures Forest(q)
  {
    if name !in p {
      forall n, k: nat ensures Up(q, n, k) == Up(p, n, k) { SameChains(p, q, n, k); }
      forall n | n in q ensures Grounded(q, n) {
        EveryNameGrounded(p, n);
        var k: nat :| Up(p, n, k).None?;
        assert Up(q, n, k).None?;
      }
    }
  }

  lemma {:induction false} SameChains(p: PreferenceMap, q: PreferenceMap, n: string, k: nat)
    requires forall m :: ParentOf(q, m) == ParentOf(p, m)
    ensures Up(q, n, k) == Up(p, n, k)
    decreases k
  {
    if k > 0 && ParentOf(p, n).Some? {
      SameChains(p, q, ParentOf(p, n).value, k - 1);
    }
  }

  // ---- Committing a change ------------------------------------------------------------------------------

  // A mutation edits a copy and may raise.
  datatype Edit = Edited(document: Document) | Raised

  type Mutation = Document -> Edit

  // The stored document and whether its file has been written.
  datatype Store = Store(document: Document, written: bool)

  // The store after one change, and whether the change was accepted.
  ghost function Committed(s: Store, mutation: Mutation): (Store, bool) {
    match mutation(s.document)
    case Raised => (s, false)
    case Edited(d) =>
      if d == s.document && s.written then (s, true)
      else if ValidDocument(d) then (Store(d, true), true)
      else (s, false)
  }

  ghost function AfterChanges(s: Store, mutations: seq<Mutation>): Store {
    if mutations == [] then s
    else Committed(AfterChanges(s, mutations[..|mutations| - 1]), mutations[|mutations| - 1]).0
  }

  // Whatever was attempted, the stored document is a valid forest.
  lemma {:induction false} EveryCommittedDocumentIsValid(s: Store, mutations: seq<Mutation>)
    requires ValidDocument(s.document)
    ensures ValidDocument(AfterChanges(s, mutations).document)
  {
    if mutations != [] {
      EveryCommittedDocumentIsValid(s, mutations[..|mutations| - 1]);
    }
  }

  class ChannelCatalog {
    var stored: Document
    var written: bool

    constructor ()
      ensures ValidDocument(stored) && !written
      ensures stored == Document(map[], {}, map[])
    {
      stored, written := Document(map[], {}, map[]), false;
    }

    method Change(mutation: Mutation) returns (accepted: bool)
      requires ValidDocument(stored)
      modifies this
      ensures ValidDocument(stored)
      ensures (Store(stored, written), accepted) == Committed(Store(old(stored), old(written)), mutation)
      ensures !accepted ==> stored == old(stored) && written == old(written)
      ensures accepted ==> mutation(old(stored)) == Edited(stored) && written
    {
      match mutation(stored) {
        case Raised =>
          accepted := false;
        case Edited(document) =>
          if document != stored || !written {
            var copy := new CatalogDocument(document);
            accepted := copy.Validate();
            if accepted {
              stored, written := copy.Value(), true;
            }
          } else {
            accepted := true;
          }
      }
    }
  }
}
