/** Unread counts of displayed channels, kept up to date by counting only what changed
    (`DisplayUnread.advanced` of src/agent_comms/bus.py, and `ReadCursor` and `UnreadQuery` of
    src/agent_comms/read_basis.py).
 */
module Unread {
  import opened Options

  // ---- One conversation's read cursor ------------------------------------------------------------

  // A proved prefix and the sequences read out of order above it.
  datatype Cursor = Cursor(highWater: nat, exceptions: set<nat>)

  const NOTHING_READ := Cursor(0, {})

  predicate IsUnread(c: Cursor, n: nat) {
    n > c.highWater && n !in c.exceptions
  }

  // As cursors are written: no exception inside the prefix.
  predicate Tidy(c: Cursor) {
    forall n :: n in c.exceptions ==> n > c.highWater
  }

  ghost predicate IsLeast(s: set<int>, m: int) {
    m in s && forall n :: n in s ==> m <= n
  }

  lemma LeastExists(s: set<int>, x: int)
    requires x in s
    ensures exists m :: IsLeast(s, m)
  {
    if y :| y in s && y < x {
      var rest := s - {x};
      LeastExists(rest, y);
      var m :| IsLeast(rest, m);
      assert s == rest + {x};
      assert IsLeast(s, m);
    } else {
      assert IsLeast(s, x);
    }
  }

  ghost function Least(s: set<int>): (m: int)
    requires exists x :: x in s
    ensures IsLeast(s, m)
  {
    var x :| x in s;
    LeastExists(s, x);
    var m :| IsLeast(s, m);
    m
  }

  function OnlyOne(a: set<nat>, b: set<nat>): set<nat> {
    (a - b) + (b - a)
  }

  // A sequence through which two cursors read alike.
  ghost function AgreesThrough(a: Cursor, b: Cursor): int {
    if a.highWater < b.highWater then a.highWater
    else if b.highWater < a.highWater then b.highWater
    else if OnlyOne(a.exceptions, b.exceptions) == {} then a.highWater
    else Least(OnlyOne(a.exceptions, b.exceptions)) - 1
  }

  lemma AgreesThroughIsSound(a: Cursor, b: Cursor, n: nat)
    requires n <= AgreesThrough(a, b)
    ensures IsUnread(a, n) <==> IsUnread(b, n)
  {
    if a.highWater == b.highWater && OnlyOne(a.exceptions, b.exceptions) != {} {
      assert n !in OnlyOne(a.exceptions, b.exceptions);
    }
  }

  // It is the highest such sequence exactly when the cursors' prefixes end together or the sequence
  // after the shorter prefix was not read out of order; joining two cursors can leave one that was.
  lemma AgreesThroughIsHighestExactly(a: Cursor, b: Cursor)
    requires Tidy(a) && Tidy(b) && a != b
    ensures AgreesThrough(a, b) >= 0
    ensures var n := AgreesThrough(a, b) + 1;
            (IsUnread(a, n) <==> !IsUnread(b, n))
            <==> || a.highWater == b.highWater
                 || (a.highWater < b.highWater && a.highWater + 1 !in a.exceptions)
                 || (b.highWater < a.highWater && b.highWater + 1 !in b.exceptions)
  {
    if a.highWater == b.highWater {
      OnlyOneIsEmptyExactly(a.exceptions, b.exceptions);
    }
  }

  lemma OnlyOneIsEmptyExactly(a: set<nat>, b: set<nat>)
    ensures OnlyOne(a, b) == {} <==> a == b
  {
    if OnlyOne(a, b) == {} {
      assert forall n: nat :: n in a <==> n in b by {
        assert forall n: nat :: n !in OnlyOne(a, b);
      }
    }
  }

  // Mark sequences read, and grow the prefix over any that now touch it.
  method Add(c: Cursor, sequences: seq<nat>) returns (after: Cursor)
    requires Tidy(c)
    ensures Tidy(after) && after.highWater + 1 !in after.exceptions
    ensures forall n: nat :: n > 0 ==> (IsUnread(after, n) <==> IsUnread(c, n) && n !in sequences)
  {
    var exceptions := c.exceptions;
    for i := 0 to |sequences|
      invariant forall n :: n in exceptions <==> n in c.exceptions || (n in sequences[..i] && n > c.highWater)
    {
      if sequences[i] > c.highWater {
        exceptions := exceptions + {sequences[i]};
      }
    }
    assert sequences[..|sequences|] == sequences;
    var highWater := c.highWater;
    while highWater + 1 in exceptions
      invariant forall n :: n in exceptions ==> n > highWater
      invariant forall n: nat :: n > 0 ==> (IsUnread(Cursor(highWater, exceptions), n) <==> IsUnread(c, n)
                                                                                            && n !in sequences)
      decreases exceptions
    {
      highWater := highWater + 1;
      exceptions := exceptions - {highWater};
    }
    after := Cursor(highWater, exceptions);
  }

  // ---- Cursors joined to messages ------------------------------------------------------------------

  datatype Message = Message(seqNo: nat, target: string, sender: string, content: string)

  // A cursor with the target and sender it applies to; an empty target stands for the whole bus.
  datatype CursorRow = CursorRow(target: string, sender: string, cursor: Cursor)

  type Key = (string, string)

  const WHOLE_BUS: Key := ("", "")

  function KeyOf(row: CursorRow): Key {
    (row.target, row.sender)
  }

  predicate Joins(row: CursorRow, m: Message) {
    row.target == m.target && (row.sender == "" || row.sender == m.sender)
  }

  // The cursors a message's row joins: on its target, for everyone or for its sender.
  function Joined(cursors: seq<CursorRow>, m: Message): seq<Cursor> {
    if cursors == [] then []
    else
      var last := cursors[|cursors| - 1];
      Joined(cursors[..|cursors| - 1], m) + if Joins(last, m) then [last.cursor] else []
  }

  function WholeBus(cursors: seq<CursorRow>): seq<Cursor> {
    if cursors == [] then []
    else
      var last := cursors[|cursors| - 1];
      WholeBus(cursors[..|cursors| - 1]) + if KeyOf(last) == WHOLE_BUS then [last.cursor] else []
  }

  // A left join gives one row without a cursor when none matches.
  function OrNothing(cursors: seq<Cursor>): seq<Cursor> {
    if cursors == [] then [NOTHING_READ] else cursors
  }

  function PairsWith(read: Cursor, all_: seq<Cursor>, n: nat): nat {
    if all_ == [] then 0
    else PairsWith(read, all_[..|all_| - 1], n) + if IsUnread(read, n) && n > all_[|all_| - 1].highWater then 1 else 0
  }

  function Pairs(joined: seq<Cursor>, all_: seq<Cursor>, n: nat): nat {
    if joined == [] then 0
    else Pairs(joined[..|joined| - 1], all_, n) + PairsWith(joined[|joined| - 1], all_, n)
  }

  // How often the count query counts one message.
  function TimesCounted(cursors: seq<CursorRow>, m: Message): nat {
    Pairs(OrNothing(Joined(cursors, m)), OrNothing(WholeBus(cursors)), m.seqNo)
  }

  // ---- Queries ----------------------------------------------------------------------------------------

  // A captured predicate, or one narrowed to some targets.
  datatype Scope = Captured(predicate_: string, parameters: seq<string>) | Narrowed(inner: Scope, targets: set<string>)

  // What a captured predicate selects.
  type Meaning = (string, seq<string>, Message) -> bool

  function Selects(meaning: Meaning, scope: Scope, m: Message): bool {
    match scope
    case Captured(p, ps) => meaning(p, ps, m)
    case Narrowed(inner, targets) => Selects(meaning, inner, m) && m.target in targets
  }

  datatype Query = Query(channel: string, cursors: seq<CursorRow>, lowerBound: int, scope: Scope, viewers: set<string>)

  // What stays fixed while reading.
  function Counting(q: Query): Query {
    q.(cursors := [], lowerBound := 0)
  }

  function Max(a: int, b: int): int {
    if a < b then b else a
  }

  function RowCount(meaning: Meaning, q: Query, m: Message, through: int, after: int): nat {
    if Max(after, q.lowerBound) < m.seqNo <= through && Selects(meaning, q.scope, m) && m.sender !in q.viewers
    then TimesCounted(q.cursors, m) else 0
  }

  // The unread rows of a query after both a given sequence and its own bound, up to a revision.
  function CountUnread(meaning: Meaning, q: Query, log: seq<Message>, through: int, after: int): nat {
    if log == [] then 0
    else CountUnread(meaning, q, log[..|log| - 1], through, after) + RowCount(meaning, q, log[|log| - 1], through,
        after)
  }

  function ByKey(cursors: seq<CursorRow>): map<Key, Cursor> {
    if cursors == [] then map[]
        else ByKey(cursors[..|cursors| - 1])[KeyOf(cursors[|cursors| - 1]) := cursors[|cursors| - 1].cursor]
  }

  function At(cursors: map<Key, Cursor>, k: Key): Cursor {
    if k in cursors then cursors[k] else NOTHING_READ
  }

  function Differing(before: map<Key, Cursor>, after: map<Key, Cursor>): set<Key> {
    set k | k in before.Keys + after.Keys && !(k in before && k in after && before[k] == after[k])
  }

  ghost function Agreements(before: map<Key, Cursor>, after: map<Key, Cursor>, keys: set<Key>): set<int> {
    set k | k in keys :: AgreesThrough(At(before, k), At(after, k))
  }

  lemma AgreementsAreSome(before: map<Key, Cursor>, after: map<Key, Cursor>, keys: set<Key>)
    requires keys != {}
    ensures exists n :: n in Agreements(before, after, keys)
  {
    var k :| k in keys;
    assert AgreesThrough(At(before, k), At(after, k)) in Agreements(before, after, keys);
  }

  function Within(q: Query, targets: set<string>, floor: int): Query {
    q.(lowerBound := Max(q.lowerBound, floor), scope := Narrowed(q.scope, targets))
  }

  datatype Correction = WholeBusMoved | NothingDiffers | Parts(before: Query, after: Query)

  ghost function Changed(q: Query, earlier: Query): set<Key> {
    Differing(ByKey(earlier.cursors), ByKey(q.cursors))
  }

  function TargetsOf(keys: set<Key>): set<string> {
    set k | k in keys :: k.0
  }

  // The least sequence through which some moved cursor reads as it did.
  ghost function FloorOf(q: Query, earlier: Query): int
    requires Changed(q, earlier) != {}
  {
    AgreementsAreSome(ByKey(earlier.cursors), ByKey(q.cursors), Changed(q, earlier));
    Least(Agreements(ByKey(earlier.cursors), ByKey(q.cursors), Changed(q, earlier)))
  }

  // The earlier and the current query over the moved conversations alone, above that floor.
  ghost function Moved(q: Query, earlier: Query): Correction {
    var changed := Changed(q, earlier);
    if exists k :: k in changed && k.0 == "" then WholeBusMoved
    else if changed == {} then NothingDiffers
    else Parts(Within(earlier, TargetsOf(changed), FloorOf(q, earlier)),
        Within(q, TargetsOf(changed), FloorOf(q, earlier)))
  }

  // ---- Cursors as they are keyed ------------------------------------------------------------------------

  // Which targets are channels; the other targets are threads.
  type Channels = string -> bool

  // A channel is read for every sender, a thread for one sender.
  predicate WellKeyed(channels: Channels, row: CursorRow) {
    KeyOf(row) == WHOLE_BUS || (row.target != "" && (row.sender == "" <==> channels(row.target)))
  }

  predicate DistinctKeys(cursors: seq<CursorRow>) {
    forall i, j :: 0 <= i < j < |cursors| ==> KeyOf(cursors[i]) != KeyOf(cursors[j])
  }

  predicate Keyed(channels: Channels, cursors: seq<CursorRow>) {
    DistinctKeys(cursors) && forall i :: 0 <= i < |cursors| ==> WellKeyed(channels, cursors[i])
  }

  // The one key of keyed cursors a message can join.
  function MessageKey(channels: Channels, m: Message): Key {
    (m.target, if channels(m.target) then "" else m.sender)
  }

  predicate Addressed(m: Message) {
    m.seqNo > 0 && m.target != "" && m.sender != ""
  }

  lemma {:induction false} ByKeyHolds(cursors: seq<CursorRow>, k: Key)
    requires DistinctKeys(cursors)
    ensures k in ByKey(cursors) <==> exists i :: 0 <= i < |cursors| && KeyOf(cursors[i]) == k
    ensures forall i :: 0 <= i < |cursors| && KeyOf(cursors[i]) == k ==> k in ByKey(cursors)
                                                                         && ByKey(cursors)[k] == cursors[i].cursor
  {
    if cursors != [] {
      ByKeyHolds(cursors[..|cursors| - 1], k);
      assert forall i :: 0 <= i < |cursors| - 1 ==> cursors[..|cursors| - 1][i] == cursors[i];
    }
  }

  // The two keys a message can join.
  function Broad(m: Message): Key {
    (m.target, "")
  }

  function Own(m: Message): Key {
    (m.target, m.sender)
  }

  function CountAt(cursors: map<Key, Cursor>, k: Key, n: nat): nat {
    if k in cursors && IsUnread(cursors[k], n) then 1 else 0
  }

  // How often cursors with distinct keys count a message: once for each that leaves it unread, once
  // when there is none, and never below the whole-bus cursor.
  function TimesAt(cursors: map<Key, Cursor>, m: Message): nat {
    if m.seqNo <= At(cursors, WHOLE_BUS).highWater then 0
    else if Broad(m) !in cursors && Own(m) !in cursors then 1
    else CountAt(cursors, Broad(m), m.seqNo) + CountAt(cursors, Own(m), m.seqNo)
  }

  lemma OnePair(read: Cursor, whole: Cursor, n: nat)
    ensures PairsWith(read, [whole], n) == if IsUnread(read, n) && n > whole.highWater then 1 else 0
  {
    assert [whole][..0] == [];
    assert PairsWith(read, [], n) == 0;
  }

  lemma NoPairs(all_: seq<Cursor>, n: nat)
    ensures Pairs([], all_, n) == 0
  {}

  lemma OneMorePair(joined: seq<Cursor>, read: Cursor, whole: Cursor, n: nat)
    ensures Pairs(joined + [read], [whole], n)
            == Pairs(joined, [whole], n) + if IsUnread(read, n) && n > whole.highWater then 1 else 0
  {
    OnePair(read, whole, n);
    assert (joined + [read])[..|joined|] == joined;
  }

  lemma {:induction false} JoinedByKey(cursors: seq<CursorRow>, m: Message, whole: Cursor)
    requires DistinctKeys(cursors) && Addressed(m)
    ensures Joined(cursors, m) == [] <==> Broad(m) !in ByKey(cursors) && Own(m) !in ByKey(cursors)
    ensures Pairs(Joined(cursors, m), [whole], m.seqNo)
            == if m.seqNo > whole.highWater
               then CountAt(ByKey(cursors), Broad(m), m.seqNo) + CountAt(ByKey(cursors), Own(m), m.seqNo) else 0
  {
    hide Pairs, PairsWith;
    if cursors == [] {
      assert Pairs([], [whole], m.seqNo) == 0 by { NoPairs([whole], m.seqNo); }
    } else {
      var earlier, last := cursors[..|cursors| - 1], cursors[|cursors| - 1];
      JoinedByKey(earlier, m, whole);
      ByKeyHolds(earlier, KeyOf(last));
      assert KeyOf(last) !in ByKey(earlier);
      if Joins(last, m) {
        OneMorePair(Joined(earlier, m), last.cursor, whole, m.seqNo);
        assert KeyOf(last) == Broad(m) || KeyOf(last) == Own(m);
      } else {
        assert KeyOf(last) != Broad(m) && KeyOf(last) != Own(m);
        assert Joined(cursors, m) == Joined(earlier, m);
      }
    }
  }

  lemma {:induction false} WholeBusByKey(cursors: seq<CursorRow>)
    requires DistinctKeys(cursors)
    ensures OrNothing(WholeBus(cursors)) == [At(ByKey(cursors), WHOLE_BUS)]
    ensures WholeBus(cursors) == [] <==> WHOLE_BUS !in ByKey(cursors)
  {
    if cursors != [] {
      var earlier, last := cursors[..|cursors| - 1], cursors[|cursors| - 1];
      WholeBusByKey(earlier);
      ByKeyHolds(earlier, KeyOf(last));
    }
  }

  lemma TimesByKey(cursors: seq<CursorRow>, m: Message)
    requires DistinctKeys(cursors) && Addressed(m)
    ensures TimesCounted(cursors, m) == TimesAt(ByKey(cursors), m)
  {
    hide Joined, WholeBus, ByKey;
    var whole := At(ByKey(cursors), WHOLE_BUS);
    WholeBusByKey(cursors);
    JoinedByKey(cursors, m, whole);
    if Joined(cursors, m) == [] {
      OnePair(NOTHING_READ, whole, m.seqNo);
      assert [NOTHING_READ][..0] == [];
      assert Pairs([], [whole], m.seqNo) == 0;
    }
  }

  // Keyed cursors count a message at most once: when neither its own cursor nor the whole-bus one read it.
  predicate UnreadBy(channels: Channels, cursors: map<Key, Cursor>, m: Message) {
    IsUnread(At(cursors, MessageKey(channels, m)), m.seqNo) && m.seqNo > At(cursors, WHOLE_BUS).highWater
  }

  lemma CountedOnce(channels: Channels, cursors: seq<CursorRow>, m: Message)
    requires Keyed(channels, cursors) && Addressed(m)
    ensures TimesCounted(cursors, m) == if UnreadBy(channels, ByKey(cursors), m) then 1 else 0
    ensures JoinCount(ByKey(cursors), m) == 1
  {
    hide ByKey, TimesCounted;
    TimesByKey(cursors, m);
    OneKeyJoins(channels, cursors, m, Broad(m));
    OneKeyJoins(channels, cursors, m, Own(m));
  }

  // How many cursors a message joins, counting none as one.
  function JoinCount(cursors: map<Key, Cursor>, m: Message): nat {
    if Broad(m) in cursors && Own(m) in cursors then 2 else 1
  }

  lemma OneKeyJoins(channels: Channels, cursors: seq<CursorRow>, m: Message, k: Key)
    requires Keyed(channels, cursors) && Addressed(m) && k in {Broad(m), Own(m)}
    ensures k in ByKey(cursors) ==> k == MessageKey(channels, m)
  {
    ByKeyHolds(cursors, k);
    if k in ByKey(cursors) {
      var i :| 0 <= i < |cursors| && KeyOf(cursors[i]) == k;
      assert WellKeyed(channels, cursors[i]);
    }
  }

  // ---- Queries as they are built --------------------------------------------------------------------------

  // Every selected message at or below the lower bound is read.
  ghost predicate BoundIsRead(meaning: Meaning, channels: Channels, q: Query) {
    forall m: Message :: Addressed(m) && m.seqNo <= q.lowerBound && Selects(meaning, q.scope, m)
        ==> !UnreadBy(channels, ByKey(q.cursors), m)
  }

  ghost predicate Proper(meaning: Meaning, channels: Channels, q: Query) {
    Keyed(channels, q.cursors) && BoundIsRead(meaning, channels, q)
  }

  // A channel scope over a read cursor: the whole-bus cursor, and one cursor per channel.
  datatype ReadCursor = ReadCursor(wholeBus: Option<Cursor>, channels: map<string, Cursor>)

  function ChannelHighWater(seen: ReadCursor, target: string): nat {
    var all_ := if seen.wholeBus.Some? then seen.wholeBus.value.highWater else 0;
    var own := if target in seen.channels then seen.channels[target].highWater else 0;
    if all_ < own then own else all_
  }

  // The rows and the bound of a query over `targets` are those of the cursor it was built from.
  ghost predicate BuiltFrom(meaning: Meaning, channels: Channels, q: Query, seen: ReadCursor, targets: set<string>) {
    && DistinctKeys(q.cursors)
    && (forall i :: 0 <= i < |q.cursors| ==>
                      var row := q.cursors[i];
                      || (KeyOf(row) == WHOLE_BUS && seen.wholeBus == Some(row.cursor))
                      || (row.sender == "" && row.target in targets && row.target in seen.channels
                           && seen.channels[row.target] == row.cursor))
    && (seen.wholeBus.Some? ==> CursorRow("", "", seen.wholeBus.value) in q.cursors)
    && (forall t :: t in targets && t in seen.channels ==> CursorRow(t, "", seen.channels[t]) in q.cursors)
    && (forall t :: t in targets ==> channels(t) && t != "")
    && (forall t :: t in targets ==> q.lowerBound <= ChannelHighWater(seen, t))
    && (forall m :: Selects(meaning, q.scope, m) ==> m.target in targets)
  }

  // Channel queries are proper, whatever was read.
  lemma ChannelQueriesAreProper(meaning: Meaning, channels: Channels, q: Query, seen: ReadCursor, targets: set<string>)
    requires BuiltFrom(meaning, channels, q, seen, targets)
    ensures Proper(meaning, channels, q)
  {
    forall m: Message | Addressed(m) && m.seqNo <= q.lowerBound && Selects(meaning, q.scope, m)
      ensures !UnreadBy(channels, ByKey(q.cursors), m)
    {
      var t := m.target;
      ByKeyHolds(q.cursors, WHOLE_BUS);
      ByKeyHolds(q.cursors, MessageKey(channels, m));
      if seen.wholeBus.Some? {
        var i :| 0 <= i < |q.cursors| && q.cursors[i] == CursorRow("", "", seen.wholeBus.value);
        assert At(ByKey(q.cursors), WHOLE_BUS) == seen.wholeBus.value;
      }
      if t in seen.channels {
        var i :| 0 <= i < |q.cursors| && q.cursors[i] == CursorRow(t, "", seen.channels[t]);
        assert At(ByKey(q.cursors), MessageKey(channels, m)) == seen.channels[t];
      }
    }
  }

  // A scope over any target is bounded by the whole-bus cursor.
  lemma AnyTargetQueriesAreProper(meaning: Meaning, channels: Channels, q: Query)
    requires Keyed(channels, q.cursors) && q.lowerBound == At(ByKey(q.cursors), WHOLE_BUS).highWater
    ensures Proper(meaning, channels, q)
  {
  }

  // ---- The correction is exact --------------------------------------------------------------------------------

  // A moved cursor reads as it did through the floor; a key only one side has reads nothing there.
  lemma FloorIsBelow(q: Query, earlier: Query, k: Key)
    requires k in Changed(q, earlier)
    ensures FloorOf(q, earlier) <= AgreesThrough(At(ByKey(earlier.cursors), k), At(ByKey(q.cursors), k))
  {
    hide ByKey, AgreesThrough;
    AgreementsAreSome(ByKey(earlier.cursors), ByKey(q.cursors), Changed(q, earlier));
    assert AgreesThrough(At(ByKey(earlier.cursors), k), At(ByKey(q.cursors), k))
           in Agreements(ByKey(earlier.cursors), ByKey(q.cursors), Changed(q, earlier));
  }

  // Outside the parts a message counts as before, exactly when it joins as many cursors or is read for good.
  lemma OutsideCounts(before: map<Key, Cursor>, after: map<Key, Cursor>, m: Message)
    requires Addressed(m) && At(before, WHOLE_BUS) == At(after, WHOLE_BUS)
    requires forall k :: k in {Broad(m), Own(m)} && k in Differing(before, after)
                         ==> m.seqNo <= AgreesThrough(At(before, k), At(after, k))
    ensures TimesAt(before, m) == TimesAt(after, m)
            <==> m.seqNo <= At(after, WHOLE_BUS).highWater || JoinCount(before, m) == JoinCount(after, m)
  {
    hide AgreesThrough;
    KeyReadsAlike(before, after, Broad(m), m.seqNo);
    KeyReadsAlike(before, after, Own(m), m.seqNo);
    assert IsUnread(NOTHING_READ, m.seqNo);
  }

  lemma KeyReadsAlike(before: map<Key, Cursor>, after: map<Key, Cursor>, k: Key, n: nat)
    requires k in Differing(before, after) ==> n <= AgreesThrough(At(before, k), At(after, k))
    ensures IsUnread(At(before, k), n) <==> IsUnread(At(after, k), n)
  {
    if k in Differing(before, after) {
      AgreesThroughIsSound(At(before, k), At(after, k), n);
    }
  }

  // Selected messages at or below the bound are counted by no cursor.
  ghost predicate Bounded(meaning: Meaning, q: Query) {
    forall m: Message :: Addressed(m) && m.seqNo <= q.lowerBound && Selects(meaning, q.scope, m)
        ==> TimesAt(ByKey(q.cursors), m) == 0
  }

  // Two queries that a correction may relate.
  ghost predicate Related(meaning: Meaning, q: Query, earlier: Query) {
    && DistinctKeys(q.cursors) && DistinctKeys(earlier.cursors) && Bounded(meaning, q) && Bounded(meaning, earlier)
    && Counting(q) == Counting(earlier) && Moved(q, earlier).Parts?
  }

  // A message both queries can count, and the parts leave out.
  ghost predicate LeftOut(meaning: Meaning, q: Query, earlier: Query, m: Message)
    requires Changed(q, earlier) != {}
  {
    && Addressed(m) && Selects(meaning, q.scope, m) && m.sender !in q.viewers
    && m.seqNo > At(ByKey(q.cursors), WHOLE_BUS).highWater
    && m.target in TargetsOf(Changed(q, earlier)) && m.seqNo <= FloorOf(q, earlier)
  }

  // Such a message joins as many cursors in one query as in the other.
  ghost predicate Balanced(meaning: Meaning, q: Query, earlier: Query)
    requires Changed(q, earlier) != {}
  {
    forall m: Message :: LeftOut(meaning, q, earlier, m)
        ==> JoinCount(ByKey(q.cursors), m) == JoinCount(ByKey(earlier.cursors), m)
  }

  // A bounded query counts a message of others that it selects as often as its cursors do.
  lemma BoundedCount(meaning: Meaning, q: Query, m: Message, through: int)
    requires DistinctKeys(q.cursors) && Bounded(meaning, q) && Addressed(m)
    ensures RowCount(meaning, q, m, through, -1)
            == if m.seqNo <= through && Selects(meaning, q.scope, m) && m.sender !in q.viewers
                 then TimesAt(ByKey(q.cursors), m) else 0
  {
    hide TimesCounted, ByKey, TimesAt;
    TimesByKey(q.cursors, m);
  }

  // Narrowed to some targets above a floor, it counts what it did there.
  lemma WithinCount(meaning: Meaning, q: Query, targets: set<string>, floor: int, m: Message, through: int)
    ensures RowCount(meaning, Within(q, targets, floor), m, through, -1)
            == if m.target in targets && m.seqNo > floor then RowCount(meaning, q, m, through, -1) else 0
  {
    hide TimesCounted;
  }

  ghost predicate RowCorrects(meaning: Meaning, q: Query, earlier: Query, m: Message, through: int)
    requires Moved(q, earlier).Parts?
  {
    RowCount(meaning, q, m, through, -1) + RowCount(meaning, Moved(q, earlier).before, m, through, -1)
    == RowCount(meaning, earlier, m, through, -1) + RowCount(meaning, Moved(q, earlier).after, m, through, -1)
  }

  // One message is corrected exactly unless the parts leave it out and it joins more cursors on one side.
  lemma RowCorrectsExactly(meaning: Meaning, q: Query, earlier: Query, m: Message, through: int)
    requires Related(meaning, q, earlier) && Addressed(m)
    ensures RowCorrects(meaning, q, earlier, m, through)
            <==> (m.seqNo <= through && LeftOut(meaning, q, earlier, m)
                  ==> JoinCount(ByKey(q.cursors), m) == JoinCount(ByKey(earlier.cursors), m))
  {
    hide RowCount, ByKey, AgreesThrough, Within, Bounded, TimesAt, Selects;
    var before, after := ByKey(earlier.cursors), ByKey(q.cursors);
    var targets, floor := TargetsOf(Changed(q, earlier)), FloorOf(q, earlier);
    WithinCount(meaning, q, targets, floor, m, through);
    WithinCount(meaning, earlier, targets, floor, m, through);
    BoundedCount(meaning, q, m, through);
    BoundedCount(meaning, earlier, m, through);
    assert WHOLE_BUS !in Changed(q, earlier);
    assert At(before, WHOLE_BUS) == At(after, WHOLE_BUS);
    if m.target !in targets || m.seqNo <= floor {
      forall k | k in {Broad(m), Own(m)} && k in Differing(before, after)
        ensures m.seqNo <= AgreesThrough(At(before, k), At(after, k))
      {
        assert k.0 in targets;
        FloorIsBelow(q, earlier, k);
      }
      OutsideCounts(before, after, m);
      ReadForGood(before, m);
      ReadForGood(after, m);
      if m.target !in targets {
        assert Broad(m) !in Differing(before, after) && Own(m) !in Differing(before, after);
      }
    }
  }

  lemma ReadForGood(cursors: map<Key, Cursor>, m: Message)
    ensures m.seqNo <= At(cursors, WHOLE_BUS).highWater ==> TimesAt(cursors, m) == 0
  {}

  predicate Ordered(log: seq<Message>) {
    && (forall i :: 0 <= i < |log| ==> Addressed(log[i]))
    && (forall i, j :: 0 <= i < j < |log| ==> log[i].seqNo < log[j].seqNo)
  }

  predicate AllAddressed(log: seq<Message>) {
    forall i :: 0 <= i < |log| ==> Addressed(log[i])
  }

  // The earlier count, minus its part, plus the current part, is the current count.
  ghost predicate Corrects(meaning: Meaning, q: Query, earlier: Query, log: seq<Message>, through: int)
    requires Moved(q, earlier).Parts?
  {
    CountUnread(meaning, q, log, through, -1)
    == CountUnread(meaning, earlier, log, through, -1)
       - CountUnread(meaning, Moved(q, earlier).before, log, through, -1)
       + CountUnread(meaning, Moved(q, earlier).after, log, through, -1)
  }

  lemma {:induction false} BalancedCorrects(meaning: Meaning, q: Query, earlier: Query, log: seq<Message>, through: int)
    requires Related(meaning, q, earlier) && Balanced(meaning, q, earlier) && AllAddressed(log)
    ensures Corrects(meaning, q, earlier, log, through)
  {
    hide RowCount, LeftOut, Moved, JoinCount, Bounded;
    if log != [] {
      BalancedCorrects(meaning, q, earlier, log[..|log| - 1], through);
      RowCorrectsExactly(meaning, q, earlier, log[|log| - 1], through);
    }
  }

  lemma OneMessage(meaning: Meaning, q: Query, m: Message, through: int)
    ensures CountUnread(meaning, q, [m], through, -1) == RowCount(meaning, q, m, through, -1)
  {
    assert [m][..0] == [];
    assert CountUnread(meaning, q, [], through, -1) == 0;
  }

  // The correction of moved cursors is exact over every log exactly when the messages it leaves out join
  // as many cursors before and after: when no cursor is added or dropped beside another on one target.
  lemma CorrectionIsExactExactly(meaning: Meaning, q: Query, earlier: Query)
    requires Related(meaning, q, earlier)
    ensures (forall log, through :: AllAddressed(log) ==> Corrects(meaning, q, earlier, log, through))
            <==> Balanced(meaning, q, earlier)
  {
    hide RowCount, Moved, JoinCount, Bounded, CountUnread;
    SomeKeyChanged(q, earlier);
    if Balanced(meaning, q, earlier) {
      forall log, through | AllAddressed(log) ensures Corrects(meaning, q, earlier, log, through) {
        BalancedCorrects(meaning, q, earlier, log, through);
      }
    } else {
      var m: Message :| LeftOut(meaning, q, earlier, m)
          && JoinCount(ByKey(q.cursors), m) != JoinCount(ByKey(earlier.cursors), m);
      RowCorrectsExactly(meaning, q, earlier, m, m.seqNo);
      OneMessage(meaning, q, m, m.seqNo);
      OneMessage(meaning, earlier, m, m.seqNo);
      OneMessage(meaning, Moved(q, earlier).before, m, m.seqNo);
      OneMessage(meaning, Moved(q, earlier).after, m, m.seqNo);
      assert AllAddressed([m]) && !Corrects(meaning, q, earlier, [m], m.seqNo);
    }
  }

  // Proper queries are bounded and balanced, so their correction is exact.
  lemma CorrectionIsExact(meaning: Meaning, channels: Channels, q: Query, earlier: Query, log: seq<Message>,
                          through: int)
    requires Proper(meaning, channels, q) && Proper(meaning, channels, earlier) && Counting(q) == Counting(earlier)
    requires Moved(q, earlier).Parts? && AllAddressed(log)
    ensures Corrects(meaning, q, earlier, log, through)
  {
    hide Moved, TimesCounted, Corrects, JoinCount, LeftOut, UnreadBy, TimesAt, ByKey;
    SomeKeyChanged(q, earlier);
    ProperIsBounded(meaning, channels, q);
    ProperIsBounded(meaning, channels, earlier);
    forall m: Message | Addressed(m) ensures JoinCount(ByKey(q.cursors), m) == JoinCount(ByKey(earlier.cursors), m) {
      CountedOnce(channels, q.cursors, m);
      CountedOnce(channels, earlier.cursors, m);
    }
    assert Balanced(meaning, q, earlier) by { LeftOutIsAddressed(meaning, q, earlier); }
    BalancedCorrects(meaning, q, earlier, log, through);
  }

  lemma SomeKeyChanged(q: Query, earlier: Query)
    requires Moved(q, earlier).Parts?
    ensures Changed(q, earlier) != {}
  {}

  lemma LeftOutIsAddressed(meaning: Meaning, q: Query, earlier: Query)
    requires Changed(q, earlier) != {}
    ensures forall m: Message :: LeftOut(meaning, q, earlier, m) ==> Addressed(m)
  {}

  lemma ProperIsBounded(meaning: Meaning, channels: Channels, q: Query)
    requires Proper(meaning, channels, q)
    ensures Bounded(meaning, q)
  {
    hide TimesCounted, ByKey, TimesAt, UnreadBy;
    forall m: Message | Addressed(m) && m.seqNo <= q.lowerBound && Selects(meaning, q.scope, m)
      ensures TimesAt(ByKey(q.cursors), m) == 0
    {
      CountedOnce(channels, q.cursors, m);
      TimesByKey(q.cursors, m);
    }
  }

  // A proper query counts a message exactly when it selects it, unread.
  lemma ProperCount(meaning: Meaning, channels: Channels, q: Query, m: Message, through: int)
    requires Proper(meaning, channels, q) && Addressed(m)
    ensures RowCount(meaning, q, m, through, -1)
            == if m.seqNo <= through && Selects(meaning, q.scope, m) && m.sender !in q.viewers
                 && UnreadBy(channels, ByKey(q.cursors), m)
               then 1 else 0
  {
    hide TimesCounted, Keyed;
    CountedOnce(channels, q.cursors, m);
  }

  function UnreadAmong(meaning: Meaning, channels: Channels, q: Query, log: seq<Message>, through: int): set<nat> {
    set i: nat | i < |log| && log[i].seqNo <= through && Selects(meaning, q.scope, log[i])
        && log[i].sender !in q.viewers
                 && UnreadBy(channels, ByKey(q.cursors), log[i])
  }

  // A proper query counts how many selected messages of others are unread, whatever its lower bound.
  lemma {:induction false} CountIsHowManyAreUnread(meaning: Meaning, channels: Channels, q: Query, log: seq<Message>,
                                                   through: int)
    requires Proper(meaning, channels, q) && forall i :: 0 <= i < |log| ==> Addressed(log[i])
    ensures CountUnread(meaning, q, log, through, -1) == |UnreadAmong(meaning, channels, q, log, through)|
  {
    hide Proper, RowCount, UnreadBy, Selects;
    if log == [] {
      assert UnreadAmong(meaning, channels, q, log, through) == {};
    } else {
      var shorter, last := log[..|log| - 1], |log| - 1;
      CountIsHowManyAreUnread(meaning, channels, q, shorter, through);
      ProperCount(meaning, channels, q, log[last], through);
      var earlier, all := UnreadAmong(meaning, channels, q, shorter, through),
          UnreadAmong(meaning, channels, q, log, through);
      assert forall i: nat :: i < last ==> shorter[i] == log[i];
      assert last !in earlier;
      assert all == if last in all then earlier + {last} else earlier;
    }
  }

  // ---- Conditions that are needed ----------------------------------------------------------------------------

  const BROAD := CursorRow("#t", "", NOTHING_READ)
  const OWN := CursorRow("#t", "a", Cursor(0, {2}))

  // A cursor for one sender added beside a channel's own would be such a case: the message is counted
  // twice, and the correction says once. Keys of channel conversations name no sender, so no read of the
  // bus writes one.
  lemma MixedKeysMiscount(meaning: Meaning, earlier: Query, q: Query, m: Message)
    requires m == Message(1, "#t", "a", "") && meaning("", [], m)
    requires earlier == Query("#t", [BROAD], 0, Captured("", []), {}) && q == earlier.(cursors := [BROAD, OWN])
    ensures Counting(q) == Counting(earlier) && Moved(q, earlier).Parts? && Addressed(m)
    ensures CountUnread(meaning, q, [m], 1, -1) == 2 && !Corrects(meaning, q, earlier, [m], 1)
  {
    MixedParts(earlier, q);
    TimesByKey(q.cursors, m);
    TimesByKey(earlier.cursors, m);
    OneMessage(meaning, q, m, 1);
    OneMessage(meaning, earlier, m, 1);
    OneMessage(meaning, Within(q, {"#t"}, 1), m, 1);
    OneMessage(meaning, Within(earlier, {"#t"}, 1), m, 1);
  }

  lemma MixedParts(earlier: Query, q: Query)
    requires earlier == Query("#t", [BROAD], 0, Captured("", []), {}) && q == earlier.(cursors := [BROAD, OWN])
    ensures Moved(q, earlier) == Parts(Within(earlier, {"#t"}, 1), Within(q, {"#t"}, 1))
    ensures ByKey(earlier.cursors) == map[("#t", "") := NOTHING_READ]
    ensures ByKey(q.cursors) == map[("#t", "") := NOTHING_READ, ("#t", "a") := OWN.cursor]
  {
    var k := ("#t", "a");
    assert ByKey([BROAD]) == map[("#t", "") := NOTHING_READ] by { assert [BROAD][..0] == []; }
    assert ByKey([BROAD, OWN]) == map[("#t", "") := NOTHING_READ, k := OWN.cursor] by { assert [BROAD, OWN][..1]
        == [BROAD]; }
    var before, after := ByKey(earlier.cursors), ByKey(q.cursors);
    assert Differing(before, after) == {k};
    assert OnlyOne({}, {2}) == {2};
    assert AgreesThrough(At(before, k), At(after, k)) == 1;
    assert Agreements(before, after, {k}) == {1};
    assert TargetsOf(Differing(before, after)) == {"#t"};
    assert Least({1}) == 1;
  }

  // Joining two cursors reads what either read...
  function Union(a: Cursor, b: Cursor): Cursor {
    var through := if a.highWater < b.highWater then b.highWater else a.highWater;
    Cursor(through, set n | n in a.exceptions + b.exceptions && n > through)
  }

  lemma UnionReadsEither(a: Cursor, b: Cursor, n: nat)
    ensures Tidy(Union(a, b))
    ensures n > 0 ==> (IsUnread(Union(a, b), n) <==> IsUnread(a, n) && IsUnread(b, n))
  {}

  // ...and can leave a sequence next to its prefix read out of order, which `AgreesThrough` stops short of.
  lemma UnionIsNotHighest()
    ensures var a, b := Union(Cursor(1, {}), Cursor(0, {2})), Cursor(2, {});
            && AgreesThrough(a, b) == 1
            && forall n: nat :: IsUnread(a, n) <==> IsUnread(b, n)
  {
    assert Union(Cursor(1, {}), Cursor(0, {2})) == Cursor(1, {2});
  }
}
