/** The unread counts a display holds, advanced from one look at the bus to the next
    (`DisplayUnread.advanced` of src/agent_comms/bus.py). A held query counts only appended messages, a
    query whose cursor moved corrects only the moved conversations, and a new query counts its interval.
 */
module DisplayUnread {
  import opened Options
  import opened Unread

  // Counts through one bus revision, with their queries in the order they were selected.
  datatype Held = Held(through: int, counted: seq<Query>, counts: map<Query, int>)

  const NOTHING_HELD := Held(-1, [], map[])

  // Keys of a dictionary filled in this order.
  function Distinct(queries: seq<Query>): seq<Query> {
    if queries == [] then []
    else
      var earlier := Distinct(queries[..|queries| - 1]);
      var last := queries[|queries| - 1];
      if last in earlier then earlier else earlier + [last]
  }

  // The held query that counts the same rows by an earlier cursor; the last one selected wins.
  function Earlier(counted: seq<Query>, counting: Query): Option<Query> {
    if counted == [] then None
    else if Counting(counted[|counted| - 1]) == counting then Some(counted[|counted| - 1])
    else Earlier(counted[..|counted| - 1], counting)
  }

  datatype Plan = Kept | Corrected(previous: Query, before: Query, after: Query) | Fresh | Raises

  ghost function PlanFor(held: Held, q: Query): Plan {
    if q in held.counts then Kept
    else
      match Earlier(held.counted, Counting(q))
      case None => Fresh
      case Some(previous) =>
        match Moved(q, previous)
        case WholeBusMoved => Fresh
        case NothingDiffers => Raises
        case Parts(before, after) => Corrected(previous, before, after)
  }

  function Appended(meaning: Meaning, held: Held, q: Query, log: seq<Message>, last: int): nat {
    if last == held.through then 0 else CountUnread(meaning, q, log, last, held.through)
  }

  function HeldCount(held: Held, q: Query): int {
    if q in held.counts then held.counts[q] else 0
  }

  ghost function NewCount(meaning: Meaning, held: Held, q: Query, log: seq<Message>, last: int): int {
    match PlanFor(held, q)
    case Kept => HeldCount(held, q) + Appended(meaning, held, q, log, last)
    case Corrected(previous, before, after) =>
      HeldCount(held, previous) + Appended(meaning, held, previous, log, last)
      - CountUnread(meaning, before, log, last, -1) + CountUnread(meaning, after, log, last, -1)
    case Fresh => CountUnread(meaning, q, log, last, -1)
    case Raises => 0
  }

  ghost predicate Failing(held: Held, last: int, queries: seq<Query>) {
    && !(last == held.through && held.counted == queries)
    && exists q :: q in queries && PlanFor(held, q).Raises?
  }

  // `advanced`; None when it raises.
  ghost function Advanced(meaning: Meaning, held: Held, log: seq<Message>, last: int,
                          queries: seq<Query>): Option<Held> {
    if last == held.through && held.counted == queries then Some(held)
    else if Failing(held, last, queries) then None
    else Some(Held(last, Distinct(queries), map q | q in queries :: NewCount(meaning, held, q, log, last)))
  }

  // `display_unread`: every query counted over its whole interval.
  function WholeCounts(meaning: Meaning, log: seq<Message>, queries: seq<Query>, through: int): map<Query, int> {
    map q | q in queries :: CountUnread(meaning, q, log, through, -1)
  }

  // ---- Counting by intervals ------------------------------------------------------------------------------

  lemma {:induction false} IntervalsAdd(meaning: Meaning, q: Query, log: seq<Message>, middle: int, through: int)
    requires -1 <= middle <= through
    ensures CountUnread(meaning, q, log, through, -1)
            == CountUnread(meaning, q, log, middle, -1) + CountUnread(meaning, q, log, through, middle)
  {
    if log != [] {
      IntervalsAdd(meaning, q, log[..|log| - 1], middle, through);
    }
  }

  // Messages after a revision do not change a count through it.
  lemma {:induction false} LaterMessagesWait(meaning: Meaning, q: Query, log: seq<Message>, more: seq<Message>,
                                             through: int)
    requires forall i :: 0 <= i < |more| ==> more[i].seqNo > through
    ensures CountUnread(meaning, q, log + more, through, -1) == CountUnread(meaning, q, log, through, -1)
  {
    if more == [] {
      assert log + more == log;
    } else {
      var shorter := more[..|more| - 1];
      var whole := log + more;
      assert whole[..|whole| - 1] == log + shorter;
      LaterMessagesWait(meaning, q, log, shorter, through);
      assert whole[|whole| - 1] == more[|more| - 1];
    }
  }

  // ---- The held counts are exact ---------------------------------------------------------------------------

  ghost predicate Exact(meaning: Meaning, held: Held, log: seq<Message>) {
    && -1 <= held.through
    && (forall q :: q in held.counts <==> q in held.counted)
    && held.counts == WholeCounts(meaning, log, held.counted, held.through)
  }

  ghost predicate AllProper(meaning: Meaning, channels: Channels, queries: seq<Query>) {
    forall q :: q in queries ==> Proper(meaning, channels, q)
  }

  lemma {:induction false} DistinctKeepsMembers(queries: seq<Query>, q: Query)
    ensures q in Distinct(queries) <==> q in queries
  {
    if queries != [] {
      DistinctKeepsMembers(queries[..|queries| - 1], q);
      assert queries == queries[..|queries| - 1] + [queries[|queries| - 1]];
    }
  }

  lemma {:induction false} EarlierIsHeld(counted: seq<Query>, counting: Query)
    ensures var e := Earlier(counted, counting); e.Some? ==> e.value in counted && Counting(e.value) == counting
  {
    if counted != [] && Counting(counted[|counted| - 1]) != counting {
      EarlierIsHeld(counted[..|counted| - 1], counting);
    }
  }

  lemma KeptIsExact(meaning: Meaning, held: Held, log: seq<Message>, last: int, q: Query)
    requires Exact(meaning, held, log) && held.through <= last && q in held.counts
    ensures held.counts[q] + Appended(meaning, held, q, log, last) == CountUnread(meaning, q, log, last, -1)
  {
    IntervalsAdd(meaning, q, log, held.through, last);
  }

  lemma NewCountIsExact(meaning: Meaning, channels: Channels, held: Held, log: seq<Message>, last: int, q: Query)
    requires Exact(meaning, held, log) && held.through <= last && AllProper(meaning, channels, held.counted)
        && Proper(meaning, channels, q) && Ordered(log)
    requires !PlanFor(held, q).Raises?
    ensures NewCount(meaning, held, q, log, last) == CountUnread(meaning, q, log, last, -1)
  {
    match PlanFor(held, q)
    case Kept => KeptIsExact(meaning, held, log, last, q);
    case Corrected(previous, before, after) =>
      EarlierIsHeld(held.counted, Counting(q));
      KeptIsExact(meaning, held, log, last, previous);
      CorrectionIsExact(meaning, channels, q, previous, log, last);
    case Fresh =>
  }

  // Advancing equals counting every query over its whole interval.
  lemma AdvancedIsExact(meaning: Meaning, channels: Channels, held: Held, log: seq<Message>, last: int,
                        queries: seq<Query>)
    requires Exact(meaning, held, log) && held.through <= last && Ordered(log)
    requires AllProper(meaning, channels, held.counted) && AllProper(meaning, channels, queries)
    ensures var r := Advanced(meaning, held, log, last, queries);
            r.Some? ==> && r.value.through == last
                        && r.value.counts == WholeCounts(meaning, log, queries, last)
                        && Exact(meaning, r.value, log) && AllProper(meaning, channels, r.value.counted)
  {
    var r := Advanced(meaning, held, log, last, queries);
    if r.Some? && !(last == held.through && held.counted == queries) {
      forall q | q in queries ensures r.value.counts[q] == CountUnread(meaning, q, log, last, -1) {
        NewCountIsExact(meaning, channels, held, log, last, q);
      }
      forall q ensures q in r.value.counted <==> q in queries {
        DistinctKeepsMembers(queries, q);
      }
      assert WholeCounts(meaning, log, r.value.counted, last) == WholeCounts(meaning, log, queries, last);
    }
  }

  // Raising is exactly this: some query counts what a held query counts, from the same cursor rows,
  // without being that query (the rows come in another order, or the bound differs).
  lemma RaisesExactlyOnReorderedRows(q: Query, earlier: Query)
    requires DistinctKeys(q.cursors) && DistinctKeys(earlier.cursors)
    ensures Moved(q, earlier).NothingDiffers? <==> forall row :: row in q.cursors <==> row in earlier.cursors
  {
    var before, after := ByKey(earlier.cursors), ByKey(q.cursors);
    var changed := Differing(before, after);
    if forall row :: row in q.cursors <==> row in earlier.cursors {
      forall k ensures k !in changed {
        SameRowsSameKey(q.cursors, earlier.cursors, k);
      }
      assert changed == {};
    } else {
      if row :| row in q.cursors && row !in earlier.cursors {
        RowDiffers(q.cursors, earlier.cursors, row);
        assert KeyOf(row) in changed;
      } else {
        var row :| row in earlier.cursors && row !in q.cursors;
        RowDiffers(earlier.cursors, q.cursors, row);
        assert KeyOf(row) in changed;
      }
    }
  }

  lemma SameRowsSameKey(a: seq<CursorRow>, b: seq<CursorRow>, k: Key)
    requires DistinctKeys(a) && DistinctKeys(b) && forall row :: row in a <==> row in b
    ensures k in ByKey(a) <==> k in ByKey(b)
    ensures k in ByKey(a) ==> ByKey(a)[k] == ByKey(b)[k]
  {
    ByKeyHolds(a, k);
    ByKeyHolds(b, k);
    if i :| 0 <= i < |a| && KeyOf(a[i]) == k {
      assert a[i] in b;
    }
    if i :| 0 <= i < |b| && KeyOf(b[i]) == k {
      assert b[i] in a;
    }
  }

  lemma RowDiffers(a: seq<CursorRow>, b: seq<CursorRow>, row: CursorRow)
    requires DistinctKeys(a) && DistinctKeys(b) && row in a && row !in b
    ensures KeyOf(row) in ByKey(a) && !(KeyOf(row) in ByKey(b) && ByKey(b)[KeyOf(row)] == ByKey(a)[KeyOf(row)])
  {
    ByKeyHolds(a, KeyOf(row));
    ByKeyHolds(b, KeyOf(row));
    var i :| 0 <= i < |a| && a[i] == row;
    if KeyOf(row) in ByKey(b) {
      var j :| 0 <= j < |b| && KeyOf(b[j]) == KeyOf(row);
      assert b[j] in b;
    }
  }

  predicate SameRows(q: Query, earlier: Query) {
    (forall row :: row in q.cursors ==> row in earlier.cursors) && forall row :: row in earlier.cursors
                                                                                 ==> row in q.cursors
  }

  // A look raises exactly when it has something to do and some query not held has the cursor rows of the
  // held one that counts the same.
  lemma LookRaisesExactly(held: Held, last: int, queries: seq<Query>)
    requires forall q :: q in queries || q in held.counted ==> DistinctKeys(q.cursors)
    ensures Failing(held, last, queries)
            <==> && (last != held.through || held.counted != queries)
                 && exists q :: q in queries && q !in held.counts
                                && Earlier(held.counted, Counting(q)).Some?
                                     && SameRows(q, Earlier(held.counted, Counting(q)).value)
  {
    hide Moved;
    forall q | q in queries
      ensures PlanFor(held, q).Raises?
              <==> q !in held.counts && Earlier(held.counted, Counting(q)).Some?
                   && SameRows(q, Earlier(held.counted, Counting(q)).value)
    {
      if q !in held.counts && Earlier(held.counted, Counting(q)).Some? {
        EarlierIsHeld(held.counted, Counting(q));
        RaisesExactlyOnReorderedRows(q, Earlier(held.counted, Counting(q)).value);
      }
    }
  }

  // Two queries of one channel display whose rows come in another order do that.
  lemma ReorderedRowsRaise(meaning: Meaning, channels: Channels, a: CursorRow, b: CursorRow, earlier: Query,
                           q: Query, log: seq<Message>)
    requires channels("#a") && channels("#b") && forall m :: meaning("", [], m) ==> m.target in {"#a", "#b"}
    requires a == CursorRow("#a", "", Cursor(1, {})) && b == CursorRow("#b", "", Cursor(1, {}))
    requires earlier == Query("#view", [a, b], 1, Captured("", []), {}) && q == earlier.(cursors := [b, a])
    ensures var seen := ReadCursor(None, map["#a" := a.cursor, "#b" := b.cursor]);
            BuiltFrom(meaning, channels, q, seen, {"#a", "#b"})
                && BuiltFrom(meaning, channels, earlier, seen, {"#a", "#b"})
    ensures Advanced(meaning, Held(1, [earlier], map[earlier := 0]), log, 1, [q]).None?
  {
    var held := Held(1, [earlier], map[earlier := 0]);
    assert earlier.cursors[0] == a && q.cursors[0] == b;
    assert q != earlier;
    assert Earlier(held.counted, Counting(q)) == Some(earlier);
    assert q in [q];
    LookRaisesExactly(held, 1, [q]);
  }

  // ---- Whole runs -----------------------------------------------------------------------------------------------

  // Messages arrive, then the display looks at the bus's last sequence with some selection.
  datatype Look = Look(arrived: seq<Message>, last: nat, queries: seq<Query>)

  function Log(looks: seq<Look>): seq<Message> {
    if looks == [] then [] else Log(looks[..|looks| - 1]) + looks[|looks| - 1].arrived
  }

  function Last(looks: seq<Look>): int {
    if looks == [] then -1 else looks[|looks| - 1].last
  }

  // Sequences only rise: what arrives follows the last look.
  ghost predicate Timely(looks: seq<Look>) {
    looks != [] ==>
      var earlier, look := looks[..|looks| - 1], looks[|looks| - 1];
      && Timely(earlier) && Last(earlier) <= look.last
      && (forall i :: 0 <= i < |look.arrived| ==> Last(earlier) < look.arrived[i].seqNo <= look.last)
  }

  // A look that raises leaves the held counts as they were.
  ghost function After(meaning: Meaning, looks: seq<Look>): Held {
    if looks == [] then NOTHING_HELD
    else
      var held, look := After(meaning, looks[..|looks| - 1]), looks[|looks| - 1];
      var next := Advanced(meaning, held, Log(looks), look.last, look.queries);
      if next.Some? then next.value else held
  }

  ghost predicate ProperLooks(meaning: Meaning, channels: Channels, looks: seq<Look>) {
    forall i :: 0 <= i < |looks| ==> AllProper(meaning, channels, looks[i].queries)
  }

  lemma ArrivalsKeepExact(meaning: Meaning, held: Held, log: seq<Message>, more: seq<Message>)
    requires Exact(meaning, held, log) && forall i :: 0 <= i < |more| ==> more[i].seqNo > held.through
    ensures Exact(meaning, held, log + more)
  {
    forall q | q in held.counted
      ensures CountUnread(meaning, q, log + more, held.through, -1) == CountUnread(meaning, q, log, held.through, -1)
    {
      LaterMessagesWait(meaning, q, log, more, held.through);
    }
    assert WholeCounts(meaning, log + more, held.counted, held.through)
        == WholeCounts(meaning, log, held.counted, held.through);
  }

  // Over every run, whatever arrives and is read or selected between looks, what is held is what a
  // whole recount through the held revision gives; a look that does not raise holds the current counts.
  lemma {:induction false} EveryRunIsExact(meaning: Meaning, channels: Channels, looks: seq<Look>)
    requires Ordered(Log(looks)) && Timely(looks) && ProperLooks(meaning, channels, looks)
    ensures Exact(meaning, After(meaning, looks), Log(looks))
        && AllProper(meaning, channels, After(meaning, looks).counted)
    ensures After(meaning, looks).through <= Last(looks)
    ensures looks != [] ==>
              var look := looks[|looks| - 1];
              Failing(After(meaning, looks[..|looks| - 1]), look.last, look.queries)
              || After(meaning, looks).counts == WholeCounts(meaning, Log(looks), look.queries, look.last)
  {
    if looks != [] {
      var earlier, look := looks[..|looks| - 1], looks[|looks| - 1];
      assert forall i :: 0 <= i < |Log(earlier)| ==> Log(earlier)[i] == Log(looks)[i];
      EveryRunIsExact(meaning, channels, earlier);
      ArrivalsKeepExact(meaning, After(meaning, earlier), Log(earlier), look.arrived);
      AdvancedIsExact(meaning, channels, After(meaning, earlier), Log(looks), look.last, look.queries);
    }
  }

  ghost predicate ChannelQuery(meaning: Meaning, channels: Channels, q: Query) {
    exists seen: ReadCursor, targets: set<string> :: BuiltFrom(meaning, channels, q, seen, targets)
  }

  lemma ChannelQueryIsProper(meaning: Meaning, channels: Channels, q: Query)
    requires ChannelQuery(meaning, channels, q)
    ensures Proper(meaning, channels, q)
  {
    hide BuiltFrom, Proper;
    var seen: ReadCursor, targets: set<string> :| BuiltFrom(meaning, channels, q, seen, targets);
    ChannelQueriesAreProper(meaning, channels, q, seen, targets);
  }

  // Channel displays need nothing else: queries built from any read cursors are counted exactly.
  lemma ChannelRunsAreExact(meaning: Meaning, channels: Channels, looks: seq<Look>)
    requires Ordered(Log(looks)) && Timely(looks)
    requires forall i, q :: 0 <= i < |looks| && q in looks[i].queries ==> ChannelQuery(meaning, channels, q)
    ensures Exact(meaning, After(meaning, looks), Log(looks))
    ensures looks != [] ==>
              var look := looks[|looks| - 1];
              Failing(After(meaning, looks[..|looks| - 1]), look.last, look.queries)
              || After(meaning, looks).counts == WholeCounts(meaning, Log(looks), look.queries, look.last)
  {
    hide ChannelQuery, Proper, Exact, After, Log, Ordered, Timely;
    forall i | 0 <= i < |looks| ensures AllProper(meaning, channels, looks[i].queries) {
      forall q | q in looks[i].queries ensures Proper(meaning, channels, q) {
        ChannelQueryIsProper(meaning, channels, q);
      }
    }
    EveryRunIsExact(meaning, channels, looks);
  }
}
