/** Activity clocks: when a channel last had a message and a person's message
    (src/agent_comms/activity_clocks.py and the maxima of src/agent_comms/bus_activity_index.py).
 */
module Activity {
  import opened Publication

  datatype Clocks = Clocks(lastMessage: real, lastUserInput: real)

  function Max(a: real, b: real): real {
    if a < b then b else a
  }

  function Time(r: Record): real {
    r.made.content.time
  }

  function Target(r: Record): string {
    r.made.content.target
  }

  // Only a person's message moves the user-input clock.
  function UserInput(r: Record, previous: real): real {
    if r.made.fromUser then Max(previous, Time(r)) else previous
  }

  function FromMessage(r: Record): Clocks {
    Clocks(Time(r), UserInput(r, 0.0))
  }

  function Observe(c: Clocks, r: Record): Clocks {
    Clocks(Max(c.lastMessage, Time(r)), UserInput(r, c.lastUserInput))
  }

  // Insert a target's row, or raise each of its columns to the larger value.
  function Raised(index: map<string, Clocks>, r: Record): map<string, Clocks> {
    var row := FromMessage(r);
    if Target(r) in index then
      var held := index[Target(r)];
      index[Target(r) := Clocks(Max(held.lastMessage, row.lastMessage), Max(held.lastUserInput, row.lastUserInput))]
    else index[Target(r) := row]
  }

  function IndexOf(records: seq<Record>): map<string, Clocks> {
    if records == [] then map[] else Raised(IndexOf(records[..|records| - 1]), records[|records| - 1])
  }

  // Observing a target's messages one by one, from nothing.
  function Observed(records: seq<Record>, target: string): Clocks {
    if records == [] then Clocks(0.0, 0.0)
    else
      var earlier := Observed(records[..|records| - 1], target);
      if Target(records[|records| - 1]) == target then Observe(earlier, records[|records| - 1]) else earlier
  }

  // The largest of some times; none of them is larger.
  ghost predicate IsLatest(records: seq<Record>, targets: set<string>, m: real) {
    && (exists i :: 0 <= i < |records| && Target(records[i]) in targets && Time(records[i]) == m)
    && (forall i :: 0 <= i < |records| && Target(records[i]) in targets ==> Time(records[i]) <= m)
  }

  // The largest time of a person's message, at least zero.
  ghost predicate IsLatestInput(records: seq<Record>, targets: set<string>, m: real) {
    && (m == 0.0 || exists i :: 0 <= i < |records| && Target(records[i]) in targets && records[i].made.fromUser
                                && Time(records[i]) == m)
    && (forall i :: 0 <= i < |records| && Target(records[i]) in targets && records[i].made.fromUser
         ==> Time(records[i]) <= m)
    && m >= 0.0
  }

  ghost predicate HasMessage(records: seq<Record>, target: string) {
    exists i :: 0 <= i < |records| && Target(records[i]) == target
  }

  // A target has a row exactly when it has a message, and the row holds the maxima over its messages.
  lemma {:induction false} RowsAreMaxima(records: seq<Record>, t: string)
    ensures t in IndexOf(records) <==> HasMessage(records, t)
    ensures t in IndexOf(records) ==> IsLatest(records, {t}, IndexOf(records)[t].lastMessage)
    ensures t in IndexOf(records) ==> IsLatestInput(records, {t}, IndexOf(records)[t].lastUserInput)
  {
    if records != [] {
      var shorter, r := records[..|records| - 1], records[|records| - 1];
      RowsAreMaxima(shorter, t);
      LatestGrows(shorter, r, t);
      assert shorter + [r] == records;
    }
  }

  lemma LatestGrows(shorter: seq<Record>, r: Record, t: string)
    requires t in IndexOf(shorter) <==> HasMessage(shorter, t)
    requires t in IndexOf(shorter) ==>
               IsLatest(shorter, {t}, IndexOf(shorter)[t].lastMessage)
                   && IsLatestInput(shorter, {t}, IndexOf(shorter)[t].lastUserInput)
    ensures var index := Raised(IndexOf(shorter), r);
            && (t in index <==> HasMessage(shorter + [r], t))
            && (t in index ==> IsLatest(shorter + [r], {t}, index[t].lastMessage)
                               && IsLatestInput(shorter + [r], {t}, index[t].lastUserInput))
  {
    var records := shorter + [r];
    assert records[|shorter|] == r && forall i :: 0 <= i < |shorter| ==> records[i] == shorter[i];
    if HasMessage(shorter, t) {
      var i :| 0 <= i < |shorter| && Target(shorter[i]) == t;
      assert Target(records[i]) == t;
    } else {
      assert forall i :: 0 <= i < |shorter| ==> Target(records[i]) != t;
    }
  }

  // Observing gives the row's user input always, and its last message unless every message predates zero.
  lemma {:induction false} ObservedIsTheRow(records: seq<Record>, t: string)
    requires HasMessage(records, t)
    ensures t in IndexOf(records)
    ensures Observed(records, t).lastUserInput == IndexOf(records)[t].lastUserInput
    ensures Observed(records, t).lastMessage == Max(0.0, IndexOf(records)[t].lastMessage)
  {
    var shorter := records[..|records| - 1];
    RowsAreMaxima(records, t);
    RowsAreMaxima(shorter, t);
    if HasMessage(shorter, t) {
      ObservedIsTheRow(shorter, t);
    } else {
      assert forall i :: 0 <= i < |shorter| ==> shorter[i] == records[i];
      ObservedNothing(shorter, t);
      assert Target(records[|records| - 1]) == t;
    }
  }

  lemma {:induction false} ObservedNothing(records: seq<Record>, t: string)
    requires !HasMessage(records, t)
    ensures Observed(records, t) == Clocks(0.0, 0.0)
  {
    if records != [] {
      var shorter := records[..|records| - 1];
      assert forall i :: 0 <= i < |shorter| ==> shorter[i] == records[i];
      assert !HasMessage(shorter, t);
      ObservedNothing(shorter, t);
    }
  }

  lemma ObservedEqualsTheRowExactly(records: seq<Record>, t: string)
    requires HasMessage(records, t)
    ensures t in IndexOf(records)
    ensures Observed(records, t) == IndexOf(records)[t]
            <==> exists i :: 0 <= i < |records| && Target(records[i]) == t && Time(records[i]) >= 0.0
  {
    ObservedIsTheRow(records, t);
    RowsAreMaxima(records, t);
  }

  // ---- Several targets at once ------------------------------------------------------------------------------

  // The maxima of some rows; zero when there are none.
  function Combine(rows: seq<Clocks>): Clocks {
    if rows == [] then Clocks(0.0, 0.0)
    else if |rows| == 1 then rows[0]
    else
      var earlier, last := Combine(rows[..|rows| - 1]), rows[|rows| - 1];
      Clocks(Max(earlier.lastMessage, last.lastMessage), Max(earlier.lastUserInput, last.lastUserInput))
  }

  function RowsOf(index: map<string, Clocks>, targets: seq<string>): seq<Clocks> {
    if targets == [] then []
    else RowsOf(index, targets[..|targets| - 1]) + if targets[|targets| - 1] in index
        then [index[targets[|targets| - 1]]] else []
  }

  function SetOf(targets: seq<string>): set<string> {
    set t | t in targets
  }

  ghost predicate AnyMessage(records: seq<Record>, targets: seq<string>) {
    exists t :: t in targets && HasMessage(records, t)
  }

  // Combining the rows of some targets, in any order, gives the maxima over all their messages.
  lemma {:induction false} CombinedAreMaxima(records: seq<Record>, targets: seq<string>)
    ensures var c := Combine(RowsOf(IndexOf(records), targets));
            && (RowsOf(IndexOf(records), targets) == [] <==> !AnyMessage(records, targets))
            && (AnyMessage(records, targets) ==> IsLatest(records, SetOf(targets), c.lastMessage))
            && (!AnyMessage(records, targets) ==> c.lastMessage == 0.0)
            && IsLatestInput(records, SetOf(targets), c.lastUserInput)
  {
    if targets != [] {
      var shorter, t := targets[..|targets| - 1], targets[|targets| - 1];
      CombinedAreMaxima(records, shorter);
      RowsAreMaxima(records, t);
      AddTarget(records, shorter, t);
      assert shorter + [t] == targets;
    }
  }

  lemma LatestOfBoth(records: seq<Record>, a: set<string>, b: set<string>, m: real, n: real)
    requires IsLatest(records, a, m) && IsLatest(records, b, n)
    ensures IsLatest(records, a + b, Max(m, n))
  {
  }

  lemma LatestInputOfBoth(records: seq<Record>, a: set<string>, b: set<string>, m: real, n: real)
    requires IsLatestInput(records, a, m) && IsLatestInput(records, b, n)
    ensures IsLatestInput(records, a + b, Max(m, n))
  {
  }

  lemma NoMessageAddsNothing(records: seq<Record>, a: set<string>, t: string)
    requires !HasMessage(records, t)
    ensures forall m :: IsLatest(records, a, m) <==> IsLatest(records, a + {t}, m)
    ensures forall m :: IsLatestInput(records, a, m) <==> IsLatestInput(records, a + {t}, m)
  {
    assert forall i :: 0 <= i < |records| ==> (Target(records[i]) in a <==> Target(records[i]) in a + {t});
  }

  lemma NoMessagesAddNothing(records: seq<Record>, targets: seq<string>, t: string, m: real)
    requires !AnyMessage(records, targets)
    ensures IsLatest(records, {t}, m) ==> IsLatest(records, SetOf(targets) + {t}, m)
    ensures IsLatestInput(records, {t}, m) ==> IsLatestInput(records, SetOf(targets) + {t}, m)
  {
    assert forall i :: 0 <= i < |records| ==> Target(records[i]) !in SetOf(targets) by {
      forall i | 0 <= i < |records| ensures Target(records[i]) !in SetOf(targets) {
        assert HasMessage(records, Target(records[i]));
      }
    }
    assert forall i :: 0 <= i < |records|
                       ==> (Target(records[i]) in {t} <==> Target(records[i]) in SetOf(targets) + {t});
  }

  lemma AddTarget(records: seq<Record>, shorter: seq<string>, t: string)
    requires var c := Combine(RowsOf(IndexOf(records), shorter));
             && (RowsOf(IndexOf(records), shorter) == [] <==> !AnyMessage(records, shorter))
             && (AnyMessage(records, shorter) ==> IsLatest(records, SetOf(shorter), c.lastMessage))
             && (!AnyMessage(records, shorter) ==> c.lastMessage == 0.0)
             && IsLatestInput(records, SetOf(shorter), c.lastUserInput)
    ensures var c := Combine(RowsOf(IndexOf(records), shorter + [t]));
            && (RowsOf(IndexOf(records), shorter + [t]) == [] <==> !AnyMessage(records, shorter + [t]))
            && (AnyMessage(records, shorter + [t]) ==> IsLatest(records, SetOf(shorter + [t]), c.lastMessage))
            && (!AnyMessage(records, shorter + [t]) ==> c.lastMessage == 0.0)
            && IsLatestInput(records, SetOf(shorter + [t]), c.lastUserInput)
  {
    hide IsLatest, IsLatestInput, HasMessage, IndexOf;
    RowsAreMaxima(records, t);
    assert (shorter + [t])[..|shorter|] == shorter;
    assert SetOf(shorter + [t]) == SetOf(shorter) + {t};
    assert AnyMessage(records, shorter + [t]) <==> AnyMessage(records, shorter) || HasMessage(records, t);
    var rows := RowsOf(IndexOf(records), shorter);
    if !HasMessage(records, t) {
      NoMessageAddsNothing(records, SetOf(shorter), t);
      assert RowsOf(IndexOf(records), shorter + [t]) == rows;
    } else {
      var row := IndexOf(records)[t];
      assert (rows + [row])[..|rows|] == rows;
      assert RowsOf(IndexOf(records), shorter + [t]) == rows + [row];
      if !AnyMessage(records, shorter) {
        NoMessagesAddNothing(records, shorter, t, row.lastMessage);
        NoMessagesAddNothing(records, shorter, t, row.lastUserInput);
      } else {
        var c := Combine(rows);
        LatestOfBoth(records, SetOf(shorter), {t}, c.lastMessage, row.lastMessage);
        LatestInputOfBoth(records, SetOf(shorter), {t}, c.lastUserInput, row.lastUserInput);
      }
    }
  }
}
